// JSON.parse (RFC 8259) on UTF-16 code units, and the proof that it reads canonical text back.
module JsonReader {
  import opened Prelude
  import opened JsonText
  import opened JsonGrammar

  datatype Read<+T> = Bad | Got(value: T, rest: Str)

  // ---------- Tokens ----------

  predicate IsSpace(u: Unit) { u == 32 || u == 9 || u == 10 || u == 13 }

  function SkipSpace(s: Str): (r: Str)
    ensures |r| <= |s|
  {
    if s != [] && IsSpace(s[0]) then SkipSpace(s[1..]) else s
  }

  function HexValue(u: Unit): Option<Unit> {
    if 48 <= u <= 57 then Some(u - 48)
    else if 97 <= u <= 102 then Some(u - 87)
    else if 65 <= u <= 70 then Some(u - 55)
    else None
  }

  function Hex4(a: Unit, b: Unit, c: Unit, d: Unit): Option<Unit> {
    var h3, h2, h1, h0 := HexValue(a), HexValue(b), HexValue(c), HexValue(d);
    if h3.Some? && h2.Some? && h1.Some? && h0.Some?
       && h3.value < 16 && h2.value < 16 && h1.value < 16 && h0.value < 16
    then Some(h3.value * 4096 + h2.value * 256 + h1.value * 16 + h0.value)
    else None
  }

  // One code unit of a quoted string, raw or escaped.
  function ReadUnit(s: Str): (r: Read<Unit>)
    ensures r.Got? ==> |r.rest| < |s|
  {
    if s == [] || s[0] == QUOTE || s[0] < 32 then Bad
    else if s[0] != BACKSLASH then Got(s[0], s[1..])
    else if |s| < 2 then Bad
    else if s[1] == QUOTE || s[1] == BACKSLASH || s[1] == 47 then Got(s[1], s[2..])
    else if s[1] == 98 then Got(8, s[2..])
    else if s[1] == 102 then Got(12, s[2..])
    else if s[1] == 110 then Got(10, s[2..])
    else if s[1] == 114 then Got(13, s[2..])
    else if s[1] == 116 then Got(9, s[2..])
    else if s[1] == 117 && |s| >= 6 then
      var h := Hex4(s[2], s[3], s[4], s[5]);
      if h.Some? then Got(h.value, s[6..]) else Bad
    else Bad
  }

  // The rest of a quoted string, after its opening quote.
  function ReadBody(s: Str): (r: Read<Str>)
    ensures r.Got? ==> |r.rest| < |s|
    decreases |s|
  {
    if s != [] && s[0] == QUOTE then Got([], s[1..])
    else
      var u := ReadUnit(s);
      if u.Bad? then Bad
      else
        var tail := ReadBody(u.rest);
        if tail.Bad? then Bad else Got([u.value] + tail.value, tail.rest)
  }

  predicate IsDigitUnit(u: Unit) { 48 <= u <= 57 }

  // How many of the leading units are digits.
  function Digits(s: Str): (n: nat)
    ensures n <= |s|
  {
    if s != [] && IsDigitUnit(s[0]) then 1 + Digits(s[1..]) else 0
  }

  // The lengths of the three parts of a numeral; None where the grammar refuses the text.
  function IntPart(s: Str): (n: Option<nat>)
    ensures n.Some? ==> 0 < n.value <= |s|
  {
    var sign := if s != [] && s[0] == 45 then 1 else 0;
    var d := Digits(s[sign..]);
    if d == 0 then None else if s[sign] == 48 then Some(sign + 1) else Some(sign + d)
  }

  function FracPart(s: Str): (n: Option<nat>)
    ensures n.Some? ==> n.value <= |s|
  {
    if s == [] || s[0] != 46 then Some(0)
    else
      var d := Digits(s[1..]);
      if d == 0 then None else Some(1 + d)
  }

  function ExpPart(s: Str): (n: Option<nat>)
    ensures n.Some? ==> n.value <= |s|
  {
    if s == [] || (s[0] != 101 && s[0] != 69) then Some(0)
    else
      var sign := if |s| > 1 && (s[1] == 43 || s[1] == 45) then 1 else 0;
      var d := Digits(s[1 + sign..]);
      if d == 0 then None else Some(1 + sign + d)
  }

  // The length of the numeral at the front of a text.
  function NumeralLength(s: Str): (n: Option<nat>)
    ensures n.Some? ==> 0 < n.value <= |s|
  {
    var i := IntPart(s);
    if i.None? then None
    else
      var f := FracPart(s[i.value..]);
      if f.None? then None
      else
        var e := ExpPart(s[i.value + f.value..]);
        if e.None? then None else Some(i.value + f.value + e.value)
  }

  predicate IsNumeral(s: Str) { NumeralLength(s) == Some(|s|) }

  // A reading is a finite number, printed by a numeral that reads as itself, or an infinity.
  ghost predicate Faithful(numbers: Numbers) {
    forall t :: IsNumber(numbers(t), numbers)
  }

  predicate IsNumber(v: Json, numbers: Numbers) {
    v.Infinite? || (v.Num? && IsNumeral(v.text) && numbers(v.text) == v)
  }

  // ---------- Values ----------

  predicate StartsWith(s: Str, prefix: Str) { prefix <= s }

  function ReadValue(s: Str, numbers: Numbers): (r: Read<Json>)
    ensures r.Got? ==> |r.rest| < |s|
    decreases |s|, 1
  {
    var t := SkipSpace(s);
    if t == [] then Bad
    else if StartsWith(t, NULL_TEXT) then Got(Null, t[4..])
    else if StartsWith(t, TRUE_TEXT) then Got(Bool(true), t[4..])
    else if StartsWith(t, FALSE_TEXT) then Got(Bool(false), t[5..])
    else if t[0] == QUOTE then
      var body := ReadBody(t[1..]);
      if body.Bad? then Bad else Got(Text(body.value), body.rest)
    else if t[0] == OPEN_BRACKET then
      var u := SkipSpace(t[1..]);
      if u != [] && u[0] == CLOSE_BRACKET then Got(Arr([]), u[1..])
      else
        var items := ReadItems(t[1..], numbers);
        if items.Bad? then Bad else Got(Arr(items.value), items.rest)
    else if t[0] == OPEN_BRACE then
      var u := SkipSpace(t[1..]);
      if u != [] && u[0] == CLOSE_BRACE then Got(Obj(map[]), u[1..])
      else
        var fields := ReadFields(t[1..], numbers);
        if fields.Bad? then Bad else Got(Obj(fields.value), fields.rest)
    else
      var n := NumeralLength(t);
      if n.None? then Bad else Got(numbers(t[..n.value]), t[n.value..])
  }

  // Array elements after the opening bracket, up to and including the closing one.
  function ReadItems(s: Str, numbers: Numbers): (r: Read<seq<Json>>)
    ensures r.Got? ==> |r.rest| < |s|
    decreases |s|, 2
  {
    var first := ReadValue(s, numbers);
    if first.Bad? then Bad
    else
      var t := SkipSpace(first.rest);
      if t == [] then Bad
      else if t[0] == CLOSE_BRACKET then Got([first.value], t[1..])
      else if t[0] != COMMA then Bad
      else
        var more := ReadItems(t[1..], numbers);
        if more.Bad? then Bad else Got([first.value] + more.value, more.rest)
  }

  function ReadKey(s: Str): (r: Read<Str>)
    ensures r.Got? ==> |r.rest| < |s|
  {
    var t := SkipSpace(s);
    if t == [] || t[0] != QUOTE then Bad
    else
      var key := ReadBody(t[1..]);
      if key.Bad? then Bad
      else
        var u := SkipSpace(key.rest);
        if u == [] || u[0] != COLON then Bad else Got(key.value, u[1..])
  }

  // Object members after the opening brace; a repeated key keeps its last value.
  function ReadFields(s: Str, numbers: Numbers): (r: Read<map<Str, Json>>)
    ensures r.Got? ==> |r.rest| < |s|
    decreases |s|, 2
  {
    var key := ReadKey(s);
    if key.Bad? then Bad
    else
      var value := ReadValue(key.rest, numbers);
      if value.Bad? then Bad
      else
        var t := SkipSpace(value.rest);
        if t == [] then Bad
        else if t[0] == CLOSE_BRACE then Got(map[key.value := value.value], t[1..])
        else if t[0] != COMMA then Bad
        else
          var more := ReadFields(t[1..], numbers);
          if more.Bad? then Bad else Got(map[key.value := value.value] + more.value, more.rest)
  }

  // JSON.parse: one value with nothing but white space after it.
  function Parse(s: Str, numbers: Numbers): Option<Json> {
    var v := ReadValue(s, numbers);
    if v.Got? && SkipSpace(v.rest) == [] then Some(v.value) else None
  }

  // ---------- White space and strings ----------

  lemma {:induction false} SkipGap(gap: Str, s: Str)
    requires IsGap(gap) && (s == [] || !IsSpace(s[0]))
    ensures SkipSpace(gap + s) == s
  {
    if gap == [] {
      assert gap + s == s;
    } else {
      SkipGap(gap[1..], s);
      assert (gap + s)[1..] == gap[1..] + s;
    }
  }

  lemma {:induction false} SkippedIsGap(s: Str) returns (gap: Str)
    ensures IsGap(gap) && s == gap + SkipSpace(s) && (SkipSpace(s) == [] || !IsSpace(SkipSpace(s)[0]))
  {
    gap := [];
    if s != [] && IsSpace(s[0]) {
      gap := SkippedIsGap(s[1..]);
      gap := [s[0]] + gap;
      assert s == [s[0]] + s[1..];
    }
  }

  lemma HexIsDigit(u: Unit)
    ensures HexValue(u).Some? ==> IsHexDigit(u, HexValue(u).value as int)
    ensures forall d | IsHexDigit(u, d) :: HexValue(u).Some? && HexValue(u).value as int == d
  {
  }

  // A piece is read as what it stands for.
  lemma PieceReads(p: Piece, u: Unit, rest: Str)
    requires IsPiece(p) && StandsFor(p, u)
    ensures ReadUnit(PieceText(p) + rest) == Got(u, rest)
    ensures PieceText(p)[0] != QUOTE
  {
    var s := PieceText(p) + rest;
    hide HexValue, Hex4, IsHexDigit;
    match p
    case Plain(_) => assert s[1..] == rest;
    case Short(letter) => {
      assert s[0] == BACKSLASH && s[1] == letter && s[2..] == rest;
    }
    case Code(h3, h2, h1, h0) => {
      CodeReads(p, u);
      assert s[2] == h3 && s[3] == h2 && s[4] == h1 && s[5] == h0 && s[6..] == rest;
    }
  }

  lemma CodeReads(p: Piece, u: Unit)
    requires p.Code? && StandsFor(p, u)
    ensures Hex4(p.h3, p.h2, p.h1, p.h0) == Some(u)
  {
    hide HexValue, IsHexDigit;
    var a, b, c, d :|
      IsHexDigit(p.h3, a) && IsHexDigit(p.h2, b) && IsHexDigit(p.h1, c) && IsHexDigit(p.h0, d)
      && u as int == ((a * 16 + b) * 16 + c) * 16 + d;
    HexIsDigit(p.h3);
    HexIsDigit(p.h2);
    HexIsDigit(p.h1);
    HexIsDigit(p.h0);
    HexDigitSmall(p.h3, a);
    HexDigitSmall(p.h2, b);
    HexDigitSmall(p.h1, c);
    HexDigitSmall(p.h0, d);
  }

  lemma HexDigitSmall(u: Unit, digit: int)
    requires IsHexDigit(u, digit)
    ensures 0 <= digit < 16
  {
  }

  lemma ReadIsPiece(s: Str) returns (p: Piece)
    requires ReadUnit(s).Got?
    ensures IsPiece(p) && StandsFor(p, ReadUnit(s).value) && s == PieceText(p) + ReadUnit(s).rest
  {
    if s[0] != BACKSLASH {
      p := Plain(s[0]);
    } else if s[1] != 0x75 {
      p := Short(s[1]);
    } else {
      p := Code(s[2], s[3], s[4], s[5]);
      HexIsDigit(s[2]);
      HexIsDigit(s[3]);
      HexIsDigit(s[4]);
      HexIsDigit(s[5]);
    }
  }

  lemma {:induction false} PiecesRead(ps: seq<Piece>, s: Str, rest: Str)
    requires Spells(ps, s)
    ensures ReadBody(PiecesText(ps) + ([QUOTE] + rest)) == Got(s, rest)
  {
    hide ReadUnit, IsPiece, StandsFor, PieceText;
    var close := [QUOTE] + rest;
    if ps == [] {
      assert PiecesText(ps) + close == close && close[1..] == rest;
    } else {
      var tail := PiecesText(ps[1..]) + close;
      PieceReads(ps[0], s[0], tail);
      PiecesRead(ps[1..], s[1..], rest);
      Regroup(PieceText(ps[0]), PiecesText(ps[1..]), close);
      assert s == [s[0]] + s[1..];
    }
  }

  lemma {:induction false} BodyIsPieces(s: Str) returns (ps: seq<Piece>)
    requires ReadBody(s).Got?
    ensures Spells(ps, ReadBody(s).value) && s == PiecesText(ps) + ([QUOTE] + ReadBody(s).rest)
    decreases |s|
  {
    hide ReadUnit, IsPiece, StandsFor, PieceText;
    ps := [];
    if s[0] == QUOTE {
      assert s == [QUOTE] + s[1..];
    } else {
      var u := ReadUnit(s);
      var p := ReadIsPiece(s);
      var tail := BodyIsPieces(u.rest);
      ps := [p] + tail;
      assert ps[1..] == tail;
      Regroup(PieceText(p), PiecesText(tail), [QUOTE] + ReadBody(u.rest).rest);
    }
  }

  lemma StringReads(ps: seq<Piece>, s: Str, rest: Str)
    requires Spells(ps, s)
    ensures (StringText(ps) + rest)[0] == QUOTE
    ensures ReadBody((StringText(ps) + rest)[1..]) == Got(s, rest)
  {
    hide ReadBody, PiecesText, Spells;
    PiecesRead(ps, s, rest);
    assert (StringText(ps) + rest)[1..] == PiecesText(ps) + ([QUOTE] + rest);
  }

  lemma StringIsPieces(t: Str) returns (ps: seq<Piece>)
    requires t != [] && t[0] == QUOTE && ReadBody(t[1..]).Got?
    ensures Spells(ps, ReadBody(t[1..]).value) && t == StringText(ps) + ReadBody(t[1..]).rest
  {
    ps := BodyIsPieces(t[1..]);
    assert t == [QUOTE] + t[1..];
  }

  // ---------- Numerals ----------

  // Text after which a numeral ends: it starts with no digit, point or exponent.
  predicate Clear(rest: Str) {
    rest == [] || !(IsDigitUnit(rest[0]) || rest[0] == 46 || rest[0] == 101 || rest[0] == 69)
  }

  predicate NoDigit(rest: Str) { rest == [] || !IsDigitUnit(rest[0]) }

  lemma {:induction false} DigitsRead(s: Str, rest: Str)
    requires (forall k | 0 <= k < |s| :: IsDigitUnit(s[k])) && NoDigit(rest)
    ensures Digits(s + rest) == |s|
  {
    if s == [] {
      assert s + rest == rest;
    } else {
      DigitsRead(s[1..], rest);
      assert (s + rest)[1..] == s[1..] + rest;
    }
  }

  lemma {:induction false} DigitsAre(s: Str)
    ensures forall k | 0 <= k < Digits(s) :: IsDigitUnit(s[k])
    ensures NoDigit(s[Digits(s)..])
  {
    if s != [] && IsDigitUnit(s[0]) {
      DigitsAre(s[1..]);
      assert s[1..][Digits(s[1..])..] == s[Digits(s)..];
      forall k | 0 <= k < Digits(s) ensures IsDigitUnit(s[k]) {
        if k > 0 {
          assert s[k] == s[1..][k - 1];
        }
      }
    }
  }

  lemma WholeReads(n: Numeral, rest: Str)
    requires IsNumeralTree(n) && NoDigit(rest)
    ensures IntPart(WholeText(n) + rest) == Some(|WholeText(n)|)
  {
    var s := WholeText(n) + rest;
    var sign := if n.minus then 1 else 0;
    assert s[sign..] == n.whole + rest;
    DigitsRead(n.whole, rest);
    assert s[sign] == n.whole[0];
  }

  lemma FracReads(n: Numeral, rest: Str)
    requires IsNumeralTree(n) && NoDigit(rest) && (rest == [] || rest[0] != 46)
    ensures FracPart(FracText(n) + rest) == Some(|FracText(n)|)
  {
    if n.frac.Some? {
      assert (FracText(n) + rest)[1..] == n.frac.value + rest;
      DigitsRead(n.frac.value, rest);
    } else {
      assert FracText(n) + rest == rest;
    }
  }

  lemma ExpReads(n: Numeral, rest: Str)
    requires IsNumeralTree(n) && Clear(rest)
    ensures ExpPart(ExpText(n) + rest) == Some(|ExpText(n)|)
  {
    hide Digits;
    var s := ExpText(n) + rest;
    if n.exp.Some? {
      var sign, digits := n.exp.value.sign, n.exp.value.digits;
      DigitsRead(digits, rest);
      assert s == [n.exp.value.mark] + (sign + (digits + rest));
      if sign == [] {
        assert s[1..] == digits + rest && s[1] == digits[0];
      } else {
        assert s[2..] == digits + rest && s[1] == sign[0];
      }
    } else {
      assert s == rest;
    }
  }

  lemma TailHeads(n: Numeral, rest: Str)
    requires IsNumeralTree(n) && Clear(rest)
    ensures var tail := ExpText(n) + rest;
            NoDigit(tail) && (tail == [] || tail[0] != 46) && NoDigit(FracText(n) + tail)
  {
  }

  lemma NumeralReads(n: Numeral, rest: Str)
    requires IsNumeralTree(n) && Clear(rest)
    ensures NumeralLength(NumeralText(n) + rest) == Some(|NumeralText(n)|)
  {
    hide IntPart, FracPart, ExpPart, WholeText, FracText, ExpText, Clear, IsNumeralTree;
    var w, f, e := WholeText(n), FracText(n), ExpText(n);
    var s := NumeralText(n) + rest;
    TailHeads(n, rest);
    assert s == w + (f + (e + rest)) && s[|w|..] == f + (e + rest) && s[|w| + |f|..] == e + rest;
    WholeReads(n, f + (e + rest));
    FracReads(n, e + rest);
    ExpReads(n, rest);
  }

  lemma WholeIs(s: Str) returns (minus: bool, whole: Str)
    requires IntPart(s).Some?
    ensures AreDigits(whole) && (whole[0] == 0x30 ==> |whole| == 1)
    ensures s[..IntPart(s).value] == (if minus then [0x2D] else []) + whole
  {
    minus := s[0] == 45;
    var sign := if minus then 1 else 0;
    DigitsAre(s[sign..]);
    whole := s[sign..IntPart(s).value];
  }

  lemma FracIs(s: Str) returns (frac: Option<Str>)
    requires FracPart(s).Some?
    ensures frac.Some? ==> AreDigits(frac.value)
    ensures s[..FracPart(s).value] == if frac.Some? then [0x2E] + frac.value else []
  {
    frac := None;
    if FracPart(s).value > 0 {
      DigitsAre(s[1..]);
      frac := Some(s[1..FracPart(s).value]);
    }
  }

  lemma ExpIs(s: Str) returns (exp: Option<Exponent>)
    requires ExpPart(s).Some?
    ensures exp.Some? ==>
              && (exp.value.mark == 0x65 || exp.value.mark == 0x45)
              && (exp.value.sign == [] || exp.value.sign == [0x2B] || exp.value.sign == [0x2D])
              && AreDigits(exp.value.digits)
    ensures s[..ExpPart(s).value]
         == if exp.Some? then [exp.value.mark] + exp.value.sign + exp.value.digits else []
  {
    exp := None;
    if ExpPart(s).value > 0 {
      var sign := if |s| > 1 && (s[1] == 43 || s[1] == 45) then 1 else 0;
      DigitsAre(s[1 + sign..]);
      exp := Some(Exponent(s[0], s[1..1 + sign], s[1 + sign..ExpPart(s).value]));
    }
  }

  lemma NumeralIs(s: Str) returns (n: Numeral)
    requires NumeralLength(s).Some?
    ensures IsNumeralTree(n) && NumeralText(n) == s[..NumeralLength(s).value]
  {
    hide IntPart, FracPart, ExpPart, AreDigits;
    var i := IntPart(s).value;
    var f := FracPart(s[i..]).value;
    var e := ExpPart(s[i + f..]).value;
    var minus, whole := WholeIs(s);
    var frac := FracIs(s[i..]);
    var exp := ExpIs(s[i + f..]);
    n := Numeral(minus, whole, frac, exp);
    ThreeParts(s, i, f, e);
  }

  lemma ThreeParts(s: Str, i: nat, f: nat, e: nat)
    requires i + f + e <= |s|
    ensures s[..i] + s[i..][..f] + s[i + f..][..e] == s[..i + f + e]
  {
  }

  // The numerals are exactly the texts of the grammar.
  lemma NumeralExactly(s: Str)
    ensures IsNumeral(s) <==> exists n :: IsNumeralTree(n) && NumeralText(n) == s
  {
    hide NumeralLength, IsNumeralTree, NumeralText;
    if IsNumeral(s) {
      var n := NumeralIs(s);
      assert s[..|s|] == s;
    }
    if n :| IsNumeralTree(n) && NumeralText(n) == s {
      NumeralReads(n, []);
      assert s + [] == s;
    }
  }

  // ---------- Texts of the grammar are read ----------

  lemma SpaceFree(s: Str)
    requires s == [] || !IsSpace(s[0])
    ensures SkipSpace(s) == s
  {
  }

  // Where a value can start: no space, and neither closing bracket.
  predicate Starts(s: Str) { s != [] && !IsSpace(s[0]) && s[0] != CLOSE_BRACKET && s[0] != CLOSE_BRACE }

  // What can follow a value: the end, a comma or a closing bracket.
  predicate Ends(s: Str) { s == [] || s[0] == COMMA || s[0] == CLOSE_BRACKET || s[0] == CLOSE_BRACE }

  lemma DocStarts(d: Doc, rest: Str)
    requires IsDoc(d)
    ensures Starts(DocText(d) + rest)
  {
    if d.Number? {
      assert DocText(d)[0] == if d.n.minus then 0x2D else d.n.whole[0];
    }
  }

  lemma ReadSkips(gap: Str, s: Str, numbers: Numbers)
    requires IsGap(gap) && Starts(s)
    ensures ReadValue(gap + s, numbers) == ReadValue(s, numbers)
  {
    hide ReadItems, ReadFields, NumeralLength, ReadBody;
    SkipGap(gap, s);
    SpaceFree(s);
  }

  lemma GapEnds(gap: Str, rest: Str)
    requires IsGap(gap) && Ends(rest)
    ensures Clear(gap + rest) && SkipSpace(gap + rest) == rest
  {
    SkipGap(gap, rest);
  }

  lemma {:induction false} DocReads(d: Doc, rest: Str, numbers: Numbers)
    requires IsDoc(d) && Clear(rest)
    ensures ReadValue(DocText(d) + rest, numbers) == Got(DocValue(d, numbers), rest)
    decreases d, 2
  {
    match d
    case Word(v) => WordReads(d, rest, numbers);
    case Number(n) => NumberReads(n, rest, numbers);
    case String(ps, s) => TextReads(ps, s, rest, numbers);
    case Array(gap, elems) => ArrayReads(d, rest, numbers);
    case Object(gap, members) => ObjectReads(d, rest, numbers);
  }

  lemma WordReads(d: Doc, rest: Str, numbers: Numbers)
    requires d.Word? && IsDoc(d)
    ensures ReadValue(DocText(d) + rest, numbers) == Got(d.v, rest)
  {
    var s := DocText(d) + rest;
    SpaceFree(s);
    assert s[|DocText(d)|..] == rest;
  }

  lemma NumberReads(n: Numeral, rest: Str, numbers: Numbers)
    requires IsNumeralTree(n) && Clear(rest)
    ensures ReadValue(NumeralText(n) + rest, numbers) == Got(numbers(NumeralText(n)), rest)
  {
    hide NumeralLength, ReadBody, ReadItems, ReadFields, NumeralText;
    var t := NumeralText(n);
    var s := t + rest;
    NumeralReads(n, rest);
    NumeralStarts(n);
    SpaceFree(s);
    assert s[..|t|] == t && s[|t|..] == rest && s[0] == t[0];
  }

  lemma NumeralStarts(n: Numeral)
    requires IsNumeralTree(n)
    ensures NumeralText(n) != [] && (NumeralText(n)[0] == 45 || IsDigitUnit(NumeralText(n)[0]))
  {
    assert NumeralText(n)[0] == if n.minus then 0x2D else n.whole[0];
  }

  lemma TextReads(ps: seq<Piece>, s: Str, rest: Str, numbers: Numbers)
    requires Spells(ps, s)
    ensures ReadValue(StringText(ps) + rest, numbers) == Got(Text(s), rest)
  {
    hide ReadBody, Spells, PiecesText, ReadItems, ReadFields, NumeralLength;
    var t := StringText(ps) + rest;
    StringReads(ps, s, rest);
    SpaceFree(t);
    assert !StartsWith(t, NULL_TEXT) && !StartsWith(t, TRUE_TEXT) && !StartsWith(t, FALSE_TEXT) by {
      assert t[0] != NULL_TEXT[0] && t[0] != TRUE_TEXT[0] && t[0] != FALSE_TEXT[0];
    }
  }

  // An element, up to what follows it.
  lemma {:induction false} ElemReads(e: Elem, rest: Str, numbers: Numbers)
    requires IsElem(e) && Ends(rest)
    ensures ReadValue(ElemText(e) + rest, numbers) == Got(DocValue(e.doc, numbers), e.after + rest)
    ensures SkipSpace(e.after + rest) == rest
    ensures Starts(SkipSpace(ElemText(e) + rest))
    decreases e, 1
  {
    hide ReadValue, DocText, IsGap;
    var s := DocText(e.doc) + (e.after + rest);
    GapEnds(e.after, rest);
    DocReads(e.doc, e.after + rest, numbers);
    DocStarts(e.doc, e.after + rest);
    ReadSkips(e.before, s, numbers);
    SkipGap(e.before, s);
    assert ElemText(e) + rest == e.before + s;
  }

  lemma {:induction false} ElemsRead(elems: seq<Elem>, rest: Str, numbers: Numbers)
    requires elems != [] && forall k | 0 <= k < |elems| :: IsElem(elems[k])
    ensures ReadItems(ElemsText(elems) + ([CLOSE_BRACKET] + rest), numbers) == Got(ElemsValue(elems, numbers), rest)
    ensures Starts(SkipSpace(ElemsText(elems) + ([CLOSE_BRACKET] + rest)))
    decreases elems, 1
  {
    hide ReadValue, ElemText, SkipSpace, Starts, IsElem;
    var close := [CLOSE_BRACKET] + rest;
    if |elems| == 1 {
      ElemReads(elems[0], close, numbers);
      assert close[1..] == rest;
      assert ElemsValue(elems, numbers) == [DocValue(elems[0].doc, numbers)];
    } else {
      var more := ElemsText(elems[1..]) + close;
      var tail := [COMMA] + more;
      ElemReads(elems[0], tail, numbers);
      ElemsRead(elems[1..], rest, numbers);
      assert tail[1..] == more;
      assert ElemsText(elems) + close == ElemText(elems[0]) + tail;
    }
  }

  lemma {:induction false} ArrayReads(d: Doc, rest: Str, numbers: Numbers)
    requires d.Array? && IsDoc(d)
    ensures ReadValue(DocText(d) + rest, numbers) == Got(DocValue(d, numbers), rest)
    decreases d, 1
  {
    hide ReadItems, ReadFields, ReadBody, NumeralLength, ElemsText, SkipSpace, ElemsValue, IsElem, IsGap;
    var close := [CLOSE_BRACKET] + rest;
    var body := (if d.elems == [] then d.gap else ElemsText(d.elems)) + close;
    var s := [OPEN_BRACKET] + body;
    assert DocText(d) + rest == s && s[1..] == body && close[1..] == rest;
    SpaceFree(s);
    if d.elems == [] {
      SkipGap(d.gap, close);
      assert ElemsValue([], numbers) == [] by {
        NoElems(numbers);
      }
    } else {
      ElemsRead(d.elems, rest, numbers);
    }
  }

  lemma NoElems(numbers: Numbers)
    ensures ElemsValue([], numbers) == [] && MembersValue([], numbers) == map[]
  {
  }

  lemma KeyReads(m: Member, rest: Str)
    requires IsMember(m)
    ensures ReadKey(m.before + (StringText(m.key) + (m.between + ([COLON] + rest)))) == Got(m.name, rest)
  {
    hide ReadBody, StringText, Spells, SkipSpace, IsElem, IsGap;
    var colon := [COLON] + rest;
    var s := StringText(m.key) + (m.between + colon);
    StringReads(m.key, m.name, m.between + colon);
    SkipGap(m.before, s);
    SkipGap(m.between, colon);
    assert colon[1..] == rest;
  }

  lemma {:induction false} MembersRead(members: seq<Member>, rest: Str, numbers: Numbers)
    requires members != [] && forall k | 0 <= k < |members| :: IsMember(members[k])
    ensures ReadFields(MembersText(members) + ([CLOSE_BRACE] + rest), numbers) == Got(MembersValue(members, numbers), rest)
    decreases members, 1
  {
    hide ReadValue, ReadKey, ReadFields, SkipSpace, MembersValue, MembersText, IsElem;
    var close := [CLOSE_BRACE] + rest;
    var m := members[0];
    MembersFirst(members, numbers);
    MemberSplits(members, close);
    assert IsMember(m);
    if |members| == 1 {
      KeyReads(m, ElemText(m.elem) + close);
      ElemReads(m.elem, close, numbers);
      ReadLastField(MembersText(members) + close, m, rest, numbers);
      OneMember(members, numbers);
    } else {
      var more := MembersText(members[1..]) + close;
      KeyReads(m, ElemText(m.elem) + ([COMMA] + more));
      ElemReads(m.elem, [COMMA] + more, numbers);
      MembersRead(members[1..], rest, numbers);
      ReadFieldThen(MembersText(members) + close, m, more, Got(MembersValue(members[1..], numbers), rest), numbers);
    }
  }

  // Reading one member and the end, or one member and what follows its comma.
  lemma ReadLastField(s: Str, m: Member, rest: Str, numbers: Numbers)
    requires ReadKey(s) == Got(m.name, ElemText(m.elem) + ([CLOSE_BRACE] + rest))
    requires ReadValue(ElemText(m.elem) + ([CLOSE_BRACE] + rest), numbers)
          == Got(DocValue(m.elem.doc, numbers), m.elem.after + ([CLOSE_BRACE] + rest))
    requires SkipSpace(m.elem.after + ([CLOSE_BRACE] + rest)) == [CLOSE_BRACE] + rest
    ensures ReadFields(s, numbers) == Got(map[m.name := DocValue(m.elem.doc, numbers)], rest)
  {
    hide ReadValue, ReadKey, SkipSpace, DocValue;
    assert ([CLOSE_BRACE] + rest)[1..] == rest;
  }

  lemma ReadFieldThen(s: Str, m: Member, more: Str, tail: Read<map<Str, Json>>, numbers: Numbers)
    requires ReadKey(s) == Got(m.name, ElemText(m.elem) + ([COMMA] + more))
    requires ReadValue(ElemText(m.elem) + ([COMMA] + more), numbers)
          == Got(DocValue(m.elem.doc, numbers), m.elem.after + ([COMMA] + more))
    requires SkipSpace(m.elem.after + ([COMMA] + more)) == [COMMA] + more
    requires tail.Got? && ReadFields(more, numbers) == tail
    ensures ReadFields(s, numbers) == Got(map[m.name := DocValue(m.elem.doc, numbers)] + tail.value, tail.rest)
  {
    hide ReadValue, ReadKey, SkipSpace, DocValue;
    assert ([COMMA] + more)[1..] == more;
  }

  lemma MemberSplits(members: seq<Member>, close: Str)
    requires members != []
    ensures var m := members[0];
            var tail := if |members| == 1 then close else [COMMA] + (MembersText(members[1..]) + close);
            MembersText(members) + close
              == m.before + (StringText(m.key) + (m.between + ([COLON] + (ElemText(m.elem) + tail))))
  {
    hide StringText, ElemText;
    var m := members[0];
    if |members| == 1 {
      SixParts(m.before, StringText(m.key), m.between, [COLON], ElemText(m.elem), close);
    } else {
      var more := MembersText(members[1..]);
      SixParts(m.before, StringText(m.key), m.between, [COLON], ElemText(m.elem), [COMMA] + (more + close));
      Regroup(MemberText(m) + [COMMA], more, close);
      Regroup(MemberText(m), [COMMA], more + close);
    }
  }

  lemma SixParts(a: Str, b: Str, c: Str, d: Str, e: Str, f: Str)
    ensures a + b + c + d + e + f == a + (b + (c + (d + (e + f))))
  {
    Regroup(a + b + c + d, e, f);
    Regroup(a + b + c, d, e + f);
    Regroup(a + b, c, d + (e + f));
    Regroup(a, b, c + (d + (e + f)));
  }

  lemma OneMember(members: seq<Member>, numbers: Numbers)
    requires |members| == 1
    ensures MembersValue(members, numbers) == map[members[0].name := DocValue(members[0].elem.doc, numbers)]
  {
    NoElems(numbers);
    assert members[..0] == [];
  }

  // Reading members from the first on gives the value of the last of each name.
  lemma {:induction false} MembersFirst(members: seq<Member>, numbers: Numbers)
    requires members != []
    ensures MembersValue(members, numbers)
         == map[members[0].name := DocValue(members[0].elem.doc, numbers)] + MembersValue(members[1..], numbers)
  {
    var n := |members| - 1;
    if n > 0 {
      MembersFirst(members[..n], numbers);
      assert members[1..][..n - 1] == members[..n][1..];
    } else {
      NoElems(numbers);
      assert members[..0] == [] && members[1..] == [];
    }
  }

  lemma {:induction false} ObjectReads(d: Doc, rest: Str, numbers: Numbers)
    requires d.Object? && IsDoc(d)
    ensures ReadValue(DocText(d) + rest, numbers) == Got(DocValue(d, numbers), rest)
    decreases d, 1
  {
    hide ReadItems, ReadFields, ReadBody, NumeralLength, MembersText, SkipSpace, MembersValue, IsMember, IsGap;
    var close := [CLOSE_BRACE] + rest;
    var body := (if d.members == [] then d.gap else MembersText(d.members)) + close;
    var s := [OPEN_BRACE] + body;
    assert DocText(d) + rest == s && s[1..] == body && close[1..] == rest;
    SpaceFree(s);
    if d.members == [] {
      SkipGap(d.gap, close);
      NoElems(numbers);
    } else {
      MembersRead(d.members, rest, numbers);
      MembersStart(d.members, close);
    }
  }

  lemma MembersStart(members: seq<Member>, close: Str)
    requires members != [] && IsMember(members[0])
    ensures Starts(SkipSpace(MembersText(members) + close))
  {
    hide SkipSpace, IsGap, MembersText, Spells, IsElem;
    var m := members[0];
    var tail := if |members| == 1 then close else [COMMA] + (MembersText(members[1..]) + close);
    MemberSplits(members, close);
    SkipGap(m.before, StringText(m.key) + (m.between + ([COLON] + (ElemText(m.elem) + tail))));
  }

  // ---------- What is read is a text of the grammar ----------

  lemma {:induction false} ValueIsDoc(s: Str, numbers: Numbers) returns (gap: Str, d: Doc)
    requires ReadValue(s, numbers).Got?
    ensures IsGap(gap) && IsDoc(d) && s == gap + (DocText(d) + ReadValue(s, numbers).rest)
    ensures ReadValue(s, numbers).value == DocValue(d, numbers)
    decreases |s|, 1
  {
    gap := SkippedIsGap(s);
    var t := SkipSpace(s);
    if t[0] == OPEN_BRACKET {
      d := IsArray(t, numbers);
    } else if t[0] == OPEN_BRACE {
      d := IsObject(t, numbers);
    } else {
      d := IsPlain(t, numbers);
    }
    ReadSkipped(s, numbers);
  }

  lemma ReadSkipped(s: Str, numbers: Numbers)
    ensures ReadValue(SkipSpace(s), numbers) == ReadValue(s, numbers)
  {
    hide ReadItems, ReadFields, NumeralLength, ReadBody;
    var gap := SkippedIsGap(s);
    SpaceFree(SkipSpace(s));
  }

  lemma IsPlain(t: Str, numbers: Numbers) returns (d: Doc)
    requires t != [] && !IsSpace(t[0]) && t[0] != OPEN_BRACKET && t[0] != OPEN_BRACE && ReadValue(t, numbers).Got?
    ensures IsDoc(d) && t == DocText(d) + ReadValue(t, numbers).rest && ReadValue(t, numbers).value == DocValue(d, numbers)
  {
    hide ReadBody, NumeralLength, Spells, IsNumeralTree, NumeralText, StringText;
    SpaceFree(t);
    if StartsWith(t, NULL_TEXT) {
      d := Word(Null);
    } else if StartsWith(t, TRUE_TEXT) {
      d := Word(Bool(true));
    } else if StartsWith(t, FALSE_TEXT) {
      d := Word(Bool(false));
    } else if t[0] == QUOTE {
      var ps := StringIsPieces(t);
      d := String(ps, ReadBody(t[1..]).value);
    } else {
      var n := NumeralIs(t);
      d := Number(n);
    }
  }

  lemma {:induction false} IsArray(t: Str, numbers: Numbers) returns (d: Doc)
    requires t != [] && t[0] == OPEN_BRACKET && ReadValue(t, numbers).Got?
    ensures IsDoc(d) && t == DocText(d) + ReadValue(t, numbers).rest && ReadValue(t, numbers).value == DocValue(d, numbers)
    decreases |t|, 0
  {
    hide ReadItems, ReadFields, ReadBody, NumeralLength, ElemsText, SkipSpace, ElemsValue, IsElem, IsGap;
    SpaceFree(t);
    NoElems(numbers);
    assert t == [OPEN_BRACKET] + t[1..];
    var u := SkipSpace(t[1..]);
    if u != [] && u[0] == CLOSE_BRACKET {
      var gap := SkippedIsGap(t[1..]);
      assert u == [CLOSE_BRACKET] + u[1..];
      d := Array(gap, []);
    } else {
      var elems := ItemsAreElems(t[1..], numbers);
      var gap := SkippedIsGap([]);
      d := Array(gap, elems);
    }
  }

  lemma {:induction false} ItemsAreElems(s: Str, numbers: Numbers) returns (elems: seq<Elem>)
    requires ReadItems(s, numbers).Got?
    ensures elems != [] && forall k | 0 <= k < |elems| :: IsElem(elems[k])
    ensures s == ElemsText(elems) + ([CLOSE_BRACKET] + ReadItems(s, numbers).rest)
    ensures ReadItems(s, numbers).value == ElemsValue(elems, numbers)
    decreases |s|, 2
  {
    hide ReadValue, DocText, SkipSpace, IsDoc, IsGap;
    var first := ReadValue(s, numbers);
    var before, d := ValueIsDoc(s, numbers);
    var after := SkippedIsGap(first.rest);
    var e := Elem(before, d, after);
    var t := SkipSpace(first.rest);
    assert s == ElemText(e) + t;
    NoElems(numbers);
    if t[0] == CLOSE_BRACKET {
      elems := [e];
      assert t == [CLOSE_BRACKET] + t[1..];
    } else {
      var more := ItemsAreElems(t[1..], numbers);
      elems := [e] + more;
      assert elems[1..] == more;
      assert t == [COMMA] + t[1..];
      Regroup(ElemText(e) + [COMMA], ElemsText(more), [CLOSE_BRACKET] + ReadItems(s, numbers).rest);
    }
  }

  lemma {:induction false} IsObject(t: Str, numbers: Numbers) returns (d: Doc)
    requires t != [] && t[0] == OPEN_BRACE && ReadValue(t, numbers).Got?
    ensures IsDoc(d) && t == DocText(d) + ReadValue(t, numbers).rest && ReadValue(t, numbers).value == DocValue(d, numbers)
    decreases |t|, 0
  {
    hide ReadItems, ReadFields, ReadBody, NumeralLength, MembersText, SkipSpace, MembersValue, IsMember, IsGap;
    SpaceFree(t);
    NoElems(numbers);
    assert t == [OPEN_BRACE] + t[1..];
    var u := SkipSpace(t[1..]);
    if u != [] && u[0] == CLOSE_BRACE {
      var gap := SkippedIsGap(t[1..]);
      assert u == [CLOSE_BRACE] + u[1..];
      d := Object(gap, []);
    } else {
      var members := FieldsAreMembers(t[1..], numbers);
      var gap := SkippedIsGap([]);
      d := Object(gap, members);
    }
  }

  lemma KeyIs(s: Str) returns (before: Str, key: seq<Piece>, between: Str)
    requires ReadKey(s).Got?
    ensures IsGap(before) && IsGap(between) && Spells(key, ReadKey(s).value)
    ensures s == before + StringText(key) + between + [COLON] + ReadKey(s).rest
  {
    hide ReadBody, StringText, Spells, SkipSpace, IsGap;
    before := SkippedIsGap(s);
    var t := SkipSpace(s);
    key := StringIsPieces(t);
    var rest := ReadBody(t[1..]).rest;
    between := SkippedIsGap(rest);
    var u := SkipSpace(rest);
    assert u == [COLON] + u[1..];
  }

  lemma MemberIs(m: Member, t: Str)
    ensures m.before + StringText(m.key) + m.between + [COLON] + (m.elem.before + (DocText(m.elem.doc) + (m.elem.after + t)))
         == MemberText(m) + t
  {
    hide StringText, DocText;
    var head := m.before + StringText(m.key) + m.between + [COLON];
    Regroup(m.elem.before, DocText(m.elem.doc), m.elem.after + t);
    Regroup(m.elem.before + DocText(m.elem.doc), m.elem.after, t);
    Regroup(head, ElemText(m.elem), t);
  }

  lemma {:induction false} FieldsAreMembers(s: Str, numbers: Numbers) returns (members: seq<Member>)
    requires ReadFields(s, numbers).Got?
    ensures members != [] && forall k | 0 <= k < |members| :: IsMember(members[k])
    ensures s == MembersText(members) + ([CLOSE_BRACE] + ReadFields(s, numbers).rest)
    ensures ReadFields(s, numbers).value == MembersValue(members, numbers)
    decreases |s|, 2
  {
    hide ReadValue, ReadKey, DocText, StringText, SkipSpace, IsDoc, IsGap, Spells, MembersValue, MemberText;
    var name := ReadKey(s);
    var before, key, between := KeyIs(s);
    var gap, d := ValueIsDoc(name.rest, numbers);
    var value := ReadValue(name.rest, numbers);
    var after := SkippedIsGap(value.rest);
    var m := Member(before, key, name.value, between, Elem(gap, d, after));
    var t := SkipSpace(value.rest);
    MemberIs(m, t);
    if t[0] == CLOSE_BRACE {
      members := [m];
      OneMember(members, numbers);
      assert t == [CLOSE_BRACE] + t[1..];
    } else {
      var more := FieldsAreMembers(t[1..], numbers);
      members := [m] + more;
      MembersFirst(members, numbers);
      assert members[1..] == more;
      assert t == [COMMA] + t[1..];
      Regroup(MemberText(m) + [COMMA], MembersText(more), [CLOSE_BRACE] + ReadFields(s, numbers).rest);
    }
  }

  // ---------- JSON.parse ----------

  ghost predicate IsTextOf(e: Elem, s: Str, v: Json, numbers: Numbers) {
    IsElem(e) && ElemText(e) == s && DocValue(e.doc, numbers) == v
  }

  // JSON.parse takes exactly the texts of the grammar, and reads each as the value it stands for.
  lemma ParsesExactly(s: Str, v: Json, numbers: Numbers)
    ensures Parse(s, numbers) == Some(v) <==> exists e :: IsTextOf(e, s, v, numbers)
  {
    hide ReadValue, SkipSpace, IsDoc, DocText;
    if e :| IsTextOf(e, s, v, numbers) {
      ElemReads(e, [], numbers);
      assert ElemText(e) + [] == s;
    }
    if Parse(s, numbers) == Some(v) {
      var before, d := ValueIsDoc(s, numbers);
      var after := SkippedIsGap(ReadValue(s, numbers).rest);
      assert after + [] == after;
      var e := Elem(before, d, after);
      assert ElemText(e) == s;
      assert IsTextOf(e, s, v, numbers);
    }
  }

  // ---------- Canonical text ----------

  // Every number in the value is one the reading produces.
  ghost predicate WellFormed(v: Json, numbers: Numbers) {
    match v
    case Num(_) => IsNumber(v, numbers)
    case Arr(items) => forall i | 0 <= i < |items| :: WellFormed(items[i], numbers)
    case Obj(fields) => forall k | k in fields :: WellFormed(fields[k], numbers)
    case _ => true
  }

  // Written without white space, the members of every object in ascending order of their names.
  ghost predicate IsTight(d: Doc) {
    match d
    case Array(gap, elems) => gap == [] && forall k | 0 <= k < |elems| :: IsTightElem(elems[k])
    case Object(gap, members) =>
      && gap == []
      && (forall k | 0 <= k < |members| :: members[k].before == members[k].between == [] && IsTightElem(members[k].elem))
      && (forall j, k | 0 <= j < k < |members| :: Before(members[j].name, members[k].name))
    case _ => true
  }

  ghost predicate IsTightElem(e: Elem) { e.before == e.after == [] && IsTight(e.doc) }

  lemma HexUnitIsDigit(d: Unit)
    requires d < 16
    ensures IsHexDigit(HexUnit(d), d as int)
  {
  }

  lemma UnitIsPiece(u: Unit, lone: bool) returns (p: Piece)
    ensures IsPiece(p) && StandsFor(p, u) && PieceText(p) == QuoteUnit(u, lone)
  {
    if u == QUOTE || u == BACKSLASH {
      p := Short(u);
    } else if u == 8 || u == 9 || u == 10 || u == 12 || u == 13 {
      p := Short(QuoteUnit(u, lone)[1]);
    } else if u < 32 || lone {
      p := EscapeIsPiece(u);
    } else {
      p := Plain(u);
    }
  }

  lemma EscapeIsPiece(u: Unit) returns (p: Piece)
    ensures IsPiece(p) && StandsFor(p, u) && PieceText(p) == Escape(u)
  {
    hide IsHexDigit, HexUnit;
    var a, b, c, d := u / 4096, u / 256 % 16, u / 16 % 16, u % 16;
    p := Code(HexUnit(a), HexUnit(b), HexUnit(c), HexUnit(d));
    HexUnitIsDigit(a);
    HexUnitIsDigit(b);
    HexUnitIsDigit(c);
    HexUnitIsDigit(d);
    var v := u as int;
    assert v / 16 / 16 == v / 256 && v / 256 / 16 == v / 4096;
    assert v == ((a as int * 16 + b as int) * 16 + c as int) * 16 + d as int;
  }

  lemma {:induction false} QuoteIsString(s: Str) returns (ps: seq<Piece>)
    ensures Spells(ps, s) && PiecesText(ps) == QuoteBody(s)
  {
    hide IsPiece, StandsFor, PieceText, QuoteUnit;
    ps := [];
    if s != [] {
      if IsHigh(s[0]) && |s| > 1 && IsLow(s[1]) {
        var tail := QuoteIsString(s[2..]);
        PlainPair(s[0], s[1], tail);
        ps := [Plain(s[0]), Plain(s[1])] + tail;
      } else {
        var p := UnitIsPiece(s[0], IsHigh(s[0]) || IsLow(s[0]));
        var tail := QuoteIsString(s[1..]);
        ps := [p] + tail;
        assert ps[1..] == tail;
      }
    }
  }

  lemma PlainPair(a: Unit, b: Unit, tail: seq<Piece>)
    requires IsHigh(a) && IsLow(b)
    ensures IsPiece(Plain(a)) && StandsFor(Plain(a), a) && IsPiece(Plain(b)) && StandsFor(Plain(b), b)
    ensures PiecesText([Plain(a), Plain(b)] + tail) == [a, b] + PiecesText(tail)
  {
    var ps := [Plain(a), Plain(b)] + tail;
    assert ps[1..] == [Plain(b)] + tail && ps[1..][1..] == tail;
  }

  // Canonical text is the text of a tight tree for the value, its infinities read as null.
  lemma {:induction false} CanonIsTight(v: Json, numbers: Numbers) returns (d: Doc)
    requires WellFormed(v, numbers)
    ensures IsDoc(d) && IsTight(d) && DocText(d) == Canon(v) && DocValue(d, numbers) == Squash(v)
    decreases v, 2
  {
    hide NumeralLength, NumeralText, IsNumeralTree, PiecesText, QuoteBody, Spells, IsGap;
    match v
    case Null => d := Word(Null);
    case Bool(b) => d := Word(Bool(b));
    case Infinite(_) => d := Word(Null);
    case Num(text) => {
      NumeralExactly(text);
      var n :| IsNumeralTree(n) && NumeralText(n) == text;
      d := Number(n);
    }
    case Text(s) => {
      var ps := QuoteIsString(s);
      d := String(ps, s);
    }
    case Arr(items) => d := ArrIsTight(v, numbers);
    case Obj(fields) => d := ObjIsTight(v, numbers);
  }

  lemma {:induction false} ArrIsTight(v: Json, numbers: Numbers) returns (d: Doc)
    requires v.Arr? && WellFormed(v, numbers)
    ensures IsDoc(d) && IsTight(d) && DocText(d) == Canon(v) && DocValue(d, numbers) == Squash(v)
    decreases v, 1
  {
    hide CanonItems, ElemsText, ElemsValue, IsElem, IsTightElem;
    var elems := ItemsAreTight(v.items, numbers);
    d := Array([], elems);
    assert CanonItems([]) == [] by {
      NoItems();
    }
    assert v.items == [] ==> Canon(v) == [OPEN_BRACKET] + [] + [CLOSE_BRACKET];
  }

  lemma NoItems()
    ensures CanonItems([]) == []
  {
  }

  lemma {:induction false} ItemsAreTight(items: seq<Json>, numbers: Numbers) returns (elems: seq<Elem>)
    requires forall i | 0 <= i < |items| :: WellFormed(items[i], numbers)
    ensures |elems| == |items| && forall k | 0 <= k < |elems| :: IsElem(elems[k]) && IsTightElem(elems[k])
    ensures ElemsText(elems) == CanonItems(items) && ElemsValue(elems, numbers) == SquashAll(items)
    decreases items, 1
  {
    hide IsDoc, IsTight, DocText, Canon, Squash, DocValue, WellFormed;
    elems := [];
    if items != [] {
      var d := CanonIsTight(items[0], numbers);
      var tail := ItemsAreTight(items[1..], numbers);
      elems := [Elem([], d, [])] + tail;
      assert elems[1..] == tail;
      assert ElemText(elems[0]) == Canon(items[0]);
    }
  }

  ghost function Picked(v: Json, keys: seq<Str>): map<Str, Json>
    requires v.Obj? && forall k | k in keys :: k in v.fields
  {
    map k | k in keys :: Squash(v.fields[k])
  }

  lemma {:induction false} ObjIsTight(v: Json, numbers: Numbers) returns (d: Doc)
    requires v.Obj? && WellFormed(v, numbers)
    ensures IsDoc(d) && IsTight(d) && DocText(d) == Canon(v) && DocValue(d, numbers) == Squash(v)
    decreases v, 1
  {
    hide IsDoc, IsTight, CanonFields, MembersText, MembersValue, IsTightMember, Squash;
    var keys := SortedKeys(v.fields.Keys);
    var members := FieldsAreTight(v, keys, numbers);
    d := Object([], members);
    TightObject(members, keys);
    NoFields(v);
    PickedAll(v);
  }

  lemma TightObject(members: seq<Member>, keys: seq<Str>)
    requires |members| == |keys| && forall k | 0 <= k < |members| :: IsTightMember(members[k], keys[k])
    requires Ascending(keys)
    ensures IsDoc(Object([], members)) && IsTight(Object([], members))
  {
    hide IsMember, IsTightElem, Before;
    forall k | 0 <= k < |members| ensures IsMember(members[k]) {
      assert IsTightMember(members[k], keys[k]);
    }
    forall k | 0 <= k < |members|
      ensures members[k].before == members[k].between == [] && IsTightElem(members[k].elem) && members[k].name == keys[k]
    {
      assert IsTightMember(members[k], keys[k]);
    }
  }

  lemma NoFields(v: Json)
    requires v.Obj?
    ensures CanonFields(v, []) == []
  {
  }

  lemma PickedAll(v: Json)
    requires v.Obj?
    ensures Squash(v) == Obj(Picked(v, SortedKeys(v.fields.Keys)))
  {
    var picked, squashed := Picked(v, SortedKeys(v.fields.Keys)), Squash(v).fields;
    assert picked.Keys == v.fields.Keys == squashed.Keys;
    assert forall k | k in picked :: picked[k] == squashed[k];
  }

  ghost predicate IsTightMember(m: Member, name: Str) {
    IsMember(m) && m.name == name && m.before == m.between == [] && IsTightElem(m.elem)
  }

  lemma PickedFirst(v: Json, keys: seq<Str>)
    requires v.Obj? && keys != [] && forall k | k in keys :: k in v.fields
    ensures Picked(v, keys) == map[keys[0] := Squash(v.fields[keys[0]])] + Picked(v, keys[1..])
  {
    hide Squash;
  }

  lemma TightMember(ps: seq<Piece>, name: Str, d: Doc)
    requires Spells(ps, name) && IsDoc(d) && IsTight(d)
    ensures IsTightMember(Member([], ps, name, [], Elem([], d, [])), name)
  {
    hide Spells, IsDoc, IsTight;
    assert IsElem(Elem([], d, [])) && IsTightElem(Elem([], d, []));
  }

  lemma {:induction false} FieldsAreTight(v: Json, keys: seq<Str>, numbers: Numbers) returns (members: seq<Member>)
    requires v.Obj? && WellFormed(v, numbers) && forall k | k in keys :: k in v.fields
    ensures |members| == |keys| && forall k | 0 <= k < |members| :: IsTightMember(members[k], keys[k])
    ensures MembersText(members) == CanonFields(v, keys) && MembersValue(members, numbers) == Picked(v, keys)
    decreases v, 0, |keys|
  {
    hide IsDoc, IsTight, DocText, Canon, Squash, DocValue, MembersValue, CanonField, Spells, PiecesText, QuoteBody;
    members := [];
    if keys == [] {
      NoElems(numbers);
      assert Picked(v, []) == map[];
    } else {
      var d := CanonIsTight(v.fields[keys[0]], numbers);
      var ps := QuoteIsString(keys[0]);
      var m := Member([], ps, keys[0], [], Elem([], d, []));
      var tail := FieldsAreTight(v, keys[1..], numbers);
      members := [m] + tail;
      assert members[1..] == tail;
      FieldIsTight(v, keys[0], m);
      TightMember(ps, keys[0], d);
      assert forall k | 1 <= k < |members| :: members[k] == tail[k - 1] && keys[k] == keys[1..][k - 1];
      MembersFirst(members, numbers);
      PickedFirst(v, keys);
    }
  }

  lemma FieldIsTight(v: Json, key: Str, m: Member)
    requires v.Obj? && key in v.fields && PiecesText(m.key) == QuoteBody(key)
    requires m.before == m.between == m.elem.before == m.elem.after == [] && DocText(m.elem.doc) == Canon(v.fields[key])
    ensures MemberText(m) == CanonField(v, key)
  {
    hide DocText, Canon, PiecesText, QuoteBody;
  }

  lemma ValueReadsBack(v: Json, rest: Str, numbers: Numbers)
    requires WellFormed(v, numbers) && Clear(rest)
    ensures ReadValue(Canon(v) + rest, numbers) == Got(Squash(v), rest)
  {
    hide ReadValue, Canon, Squash, IsDoc, DocText, DocValue;
    var d := CanonIsTight(v, numbers);
    DocReads(d, rest, numbers);
  }

  // JSON.parse reads the canonical text of a value as that value, up to its infinities.
  lemma CanonParsesBack(v: Json, numbers: Numbers)
    requires WellFormed(v, numbers)
    ensures Parse(Canon(v), numbers) == Some(Squash(v))
  {
    ValueReadsBack(v, [], numbers);
    assert Canon(v) + [] == Canon(v);
  }

  // Two values share a canonical text exactly when they differ in infinities and nulls only.
  lemma CanonInjective(v: Json, w: Json, numbers: Numbers)
    requires WellFormed(v, numbers) && WellFormed(w, numbers)
    ensures Canon(v) == Canon(w) <==> Squash(v) == Squash(w)
  {
    CanonParsesBack(v, numbers);
    CanonParsesBack(w, numbers);
    CanonSquash(v);
    CanonSquash(w);
  }

  // ---------- What JSON.parse yields ----------

  lemma {:induction false} ReadWellFormed(s: Str, numbers: Numbers)
    requires Faithful(numbers)
    ensures ReadValue(s, numbers).Got? ==> WellFormed(ReadValue(s, numbers).value, numbers)
    decreases |s|, 1
  {
    var t := SkipSpace(s);
    if t != [] {
      if t[0] == OPEN_BRACKET {
        ItemsWellFormed(t[1..], numbers);
      } else if t[0] == OPEN_BRACE {
        FieldsWellFormed(t[1..], numbers);
      }
    }
  }

  lemma {:induction false} ItemsWellFormed(s: Str, numbers: Numbers)
    requires Faithful(numbers)
    ensures ReadItems(s, numbers).Got? ==>
              forall v | v in ReadItems(s, numbers).value :: WellFormed(v, numbers)
    decreases |s|, 2
  {
    ReadWellFormed(s, numbers);
    var first := ReadValue(s, numbers);
    if first.Got? {
      var t := SkipSpace(first.rest);
      if t != [] && t[0] == COMMA {
        ItemsWellFormed(t[1..], numbers);
      }
    }
  }

  lemma {:induction false} FieldsWellFormed(s: Str, numbers: Numbers)
    requires Faithful(numbers)
    ensures ReadFields(s, numbers).Got? ==>
              forall k | k in ReadFields(s, numbers).value :: WellFormed(ReadFields(s, numbers).value[k], numbers)
    decreases |s|, 2
  {
    var key := ReadKey(s);
    if key.Got? {
      ReadWellFormed(key.rest, numbers);
      var value := ReadValue(key.rest, numbers);
      if value.Got? {
        var t := SkipSpace(value.rest);
        if t != [] && t[0] == COMMA {
          FieldsWellFormed(t[1..], numbers);
        }
      }
    }
  }

  lemma ParseWellFormed(s: Str, numbers: Numbers)
    requires Faithful(numbers)
    ensures Parse(s, numbers).Some? ==> WellFormed(Parse(s, numbers).value, numbers)
  {
    ReadWellFormed(s, numbers);
  }
}
