/**
 Which atoms survive printing and reading (crates/nexl-ast/src/printer.rs, crates/nexl-reader/src/lexer.rs). Not all do:
 `AtomReadsBack` says exactly which.
*/
module AtomReading {
  import opened Basics
  import opened Ast
  import opened FlatPrinter
  import R = Reader

  // ---------------------------------------------------------------------------------------------
  // Readable atoms
  // ---------------------------------------------------------------------------------------------

  predicate Name(h: R.Host, t: string) {
    R.StartsName(h, t) && forall i | 0 <= i < |t| :: R.NameChar(h, t[i])
  }

  /** A name that may open a symbol: neither a negative number nor a raw string. */
  predicate FirstName(h: R.Host, t: string) {
    Name(h, t) && !(t[0] == '-' && |t| > 1 && R.Digit(t[1])) && !(|t| > 2 && t[..3] == "r##")
  }

  predicate Reserved(name: string) {
    name in {"true", "false", "unit"}
  }

  predicate OwnToken(name: string) {
    name in {".", "|", "/", ":"}
  }

  /** The symbol of a reader extension without a text, such as `#sql`. */
  predicate TagName(h: R.Host, name: string) {
    |name| > 1 && name[0] == '#' && name[1] != '_' && R.StartsName(h, name[1..]) && R.PathOf(h, name[1..]).rest == ""
  }

  predicate Unaltered(s: string) {
    forall i | 0 <= i < |s| :: EscapeChar(s[i]) == [s[i]]
  }

  /** Literal braces are doubled, and interpolation holes hold nothing that printing would escape. */
  predicate Folds(s: string)
    decreases |s|
  {
    if s == [] then true
    else if s[0] == '{' then
      if R.Starts(s[1..], '{') then Folds(s[2..])
      else
        var k := R.Run(s[1..], R.NotClosing);
        k < |s| - 1 && Unaltered(s[1..][..k]) && Folds(s[1..][k + 1..])
    else if s[0] == '}' then R.Starts(s[1..], '}') && Folds(s[2..])
    else Folds(s[1..])
  }

  /** `-`, digits, a point and digits: how a finite float is printed. */
  predicate FloatShape(digits: string) {
    UnsignedShape(if R.Starts(digits, '-') then digits[1..] else digits)
  }

  predicate UnsignedShape(t: string) {
    var k := R.Run(t, R.Digit);
    k > 0 && k + 1 < |t| && t[k] == '.' && forall i | 0 <= i < |t| && i != k :: R.Digit(t[i])
  }

  function Abs(n: int): nat {
    if n < 0 then -n else n
  }

  predicate ReadableAtom(h: R.Host, a: Atom) {
    match a
    case Int(v, _) => Abs(v) < R.I128_LIMIT
    case Float(digits, _) => FloatShape(digits) && h.float(digits) == Some(digits)
    case Ratio(n, d) => Abs(n) < R.I64_BOUND && 0 < d < R.I64_BOUND && R.Gcd(Abs(n), d) == 1
    case Bool(_) => true
    case Unit => true
    case Char(c) => c != 'u' && c != '\r' && !R.Structural(c)
    case Str(s) => Folds(s)
    case Keyword(ns, name) => Name(h, name) && (ns.Some? ==> Name(h, ns.value))
    case Symbol(Some(ns), name) => FirstName(h, ns) && Name(h, name)
    case Symbol(None, name) => OwnToken(name) || (FirstName(h, name) && !Reserved(name)) || TagName(h, name)
  }

  /** What may follow any atom: the end, white space or a closing bracket. */
  predicate Stops(rest: string) {
    rest == [] || rest[0] == ' ' || rest[0] == '\n' || rest[0] == ')' || rest[0] == ']' || rest[0] == '}'
  }

  /** Atoms whose text shows where they end: `?` may follow as well. */
  predicate Closed(a: Atom) {
    match a
    case Int(_, _) => true
    case Float(_, _) => true
    case Ratio(_, _) => true
    case Str(_) => true
    case Char(c) => c != ' ' && c != '\n' && c != '\t' && c != '\r' && !IsAsciiGraphic(c)
    case _ => false
  }

  predicate Follows(a: Atom, rest: string) {
    Stops(rest) || (Closed(a) && R.Starts(rest, '?'))
  }

  // ---------------------------------------------------------------------------------------------
  // Runs of characters
  // ---------------------------------------------------------------------------------------------

  lemma RunOver(s: string, rest: string, p: char -> bool)
    requires forall i | 0 <= i < |s| :: p(s[i])
    requires rest == [] || !p(rest[0])
    ensures R.Run(s + rest, p) == |s| && (s + rest)[..|s|] == s && (s + rest)[|s|..] == rest
  {
    var all := s + rest;
    assert forall i | 0 <= i < |s| :: all[i] == s[i];
    assert rest != [] ==> all[|s|] == rest[0];
  }

  // ---------------------------------------------------------------------------------------------
  // Numbers
  // ---------------------------------------------------------------------------------------------

  lemma {:induction false} NumeralDigits(n: nat)
    ensures forall i | 0 <= i < |Numeral(n, 10)| :: R.Digit(Numeral(n, 10)[i])
    ensures R.Decimal(Numeral(n, 10)) == n
  {
    if n < 10 {
      assert R.Decimal([Digit(n)]) == 10 * R.Decimal([]) + n by { assert [Digit(n)][..0] == []; }
    } else {
      NumeralDigits(n / 10);
      var t := Numeral(n / 10, 10) + [Digit(n % 10)];
      assert t[..|t| - 1] == Numeral(n / 10, 10);
    }
  }

  function Signed(negative: bool, whole: string): string {
    (if negative then "-" else "") + whole
  }

  predicate AllDigits(s: string) {
    s != [] && forall i | 0 <= i < |s| :: R.Digit(s[i])
  }

  predicate StartsNumber(s: string) {
    R.StartsWith(s, R.Digit) || (R.Starts(s, '-') && R.StartsWith(s[1..], R.Digit))
  }

  /** The text of a number: a sign and digits. */
  lemma SignOff(v: int)
    ensures AllDigits(Numeral(Abs(v), 10)) && R.Decimal(Numeral(Abs(v), 10)) == Abs(v)
    ensures Decimal(v) == Signed(v < 0, Numeral(Abs(v), 10))
  {
    NumeralDigits(Abs(v));
    assert "" + Numeral(Abs(v), 10) == Numeral(Abs(v), 10);
  }

  lemma SuffixReads(h: R.Host, suffix: Option<IntSuffix>, rest: string)
    requires Stops(rest) || R.Starts(rest, '?')
    ensures R.IntSuffixOf(h, IntSuffixText(suffix) + rest) == Some(R.Lexed(suffix, rest))
  {
    hide R.IntSuffixOf;
    match suffix
    case None => NoSuffix(h, rest);
    case Some(I8) => SuffixWidth(h, true, "8", rest);
    case Some(I16) => SuffixWidth(h, true, "16", rest);
    case Some(I32) => SuffixWidth(h, true, "32", rest);
    case Some(I64) => SuffixWidth(h, true, "64", rest);
    case Some(U8) => SuffixWidth(h, false, "8", rest);
    case Some(U16) => SuffixWidth(h, false, "16", rest);
    case Some(U32) => SuffixWidth(h, false, "32", rest);
    case Some(U64) => SuffixWidth(h, false, "64", rest);
  }

  lemma NoSuffix(h: R.Host, rest: string)
    requires Stops(rest) || R.Starts(rest, '?')
    ensures R.IntSuffixOf(h, "" + rest) == Some(R.Lexed(None, rest))
  {
    assert "" + rest == rest;
  }

  function SuffixOf(signed: bool, width: string): Option<IntSuffix> {
    if width == "8" then Some(if signed then I8 else U8)
    else if width == "16" then Some(if signed then I16 else U16)
    else if width == "32" then Some(if signed then I32 else U32)
    else if width == "64" then Some(if signed then I64 else U64)
    else None
  }

  lemma SuffixWidth(h: R.Host, signed: bool, width: string, rest: string)
    requires (Stops(rest) || R.Starts(rest, '?')) && SuffixOf(signed, width).Some?
    ensures IntSuffixText(SuffixOf(signed, width)) == [if signed then 'i' else 'u'] + width
    ensures R.IntSuffixOf(h, IntSuffixText(SuffixOf(signed, width)) + rest) ==
            Some(R.Lexed(SuffixOf(signed, width), rest))
  {
    var letter := if signed then 'i' else 'u';
    RunOver(width, rest, R.Digit);
    var s := [letter] + width + rest;
    assert s[0] == letter && s[1..] == width + rest;
  }

  lemma FloatSuffixReads(h: R.Host, suffix: Option<FloatSuffix>, rest: string)
    requires Stops(rest) || R.Starts(rest, '?')
    ensures R.FloatSuffixOf(h, FloatSuffixText(suffix) + rest) == Some(R.Lexed(suffix, rest))
  {
    hide R.FloatSuffixOf;
    match suffix
    case None => NoFloatSuffix(h, rest);
    case Some(F32) => FloatSuffixWidth(h, true, rest);
    case Some(F64) => FloatSuffixWidth(h, false, rest);
  }

  lemma NoFloatSuffix(h: R.Host, rest: string)
    requires Stops(rest) || R.Starts(rest, '?')
    ensures R.FloatSuffixOf(h, "" + rest) == Some(R.Lexed(None, rest))
  {
    assert "" + rest == rest;
  }

  lemma FloatSuffixWidth(h: R.Host, single: bool, rest: string)
    requires Stops(rest) || R.Starts(rest, '?')
    ensures R.FloatSuffixOf(h, (if single then "f32" else "f64") + rest) ==
            Some(R.Lexed(Some(if single then F32 else F64), rest))
  {
    var width := if single then "32" else "64";
    RunOver(width, rest, R.Digit);
    var s := (if single then "f32" else "f64") + rest;
    assert s[0] == 'f' && s[1..] == width + rest;
  }

  /** No digits follow, and nothing that makes a leading zero the prefix of another base. */
  predicate EndsWhole(s: string) {
    s == [] || (!R.DigitOrLine(s[0]) && s[0] !in {'x', 'X', 'b', 'B', 'o', 'O'})
  }

  lemma NumberSplits(h: R.Host, negative: bool, whole: string, after: string)
    requires AllDigits(whole) && EndsWhole(after)
    ensures var s := Signed(negative, whole) + after;
            s != [] && StartsNumber(s) && R.NumberOf(h, s) == R.NumberAfter(h, negative, whole, after)
  {
    hide R.NumberAfter, R.Run;
    RunOver(whole, after, R.DigitOrLine);
    var s := Signed(negative, whole) + after;
    var t := whole + after;
    assert s == if negative then ['-'] + t else t;
    assert (if negative then s[1..] else s) == t;
    assert t[0] == whole[0] && R.Digit(t[0]);
    assert |t| >= 2 ==> t[1] == if |whole| > 1 then whole[1] else after[0];
    assert |t| >= 2 ==> t[1] !in {'x', 'X', 'b', 'B', 'o', 'O'};
  }

  lemma SuffixEnds(suffix: Option<IntSuffix>, rest: string)
    requires Stops(rest) || R.Starts(rest, '?')
    ensures var after := IntSuffixText(suffix) + rest;
            EndsWhole(after) && !R.Starts(after, '/') && !R.Starts(after, '.') && !R.Starts(after, 'e') &&
              !R.Starts(after, 'E')
  {
    if suffix.None? {
      assert "" + rest == rest;
    } else {
      assert (IntSuffixText(suffix) + rest)[0] == IntSuffixText(suffix)[0];
    }
  }

  lemma IntReads(h: R.Host, v: int, suffix: Option<IntSuffix>, rest: string)
    requires Stops(rest) || R.Starts(rest, '?')
    ensures var s := AtomText(Int(v, suffix)) + rest;
            s != [] && StartsNumber(s) &&
            R.NumberOf(h, s) == if Abs(v) < R.I128_LIMIT then Some(R.Lexed(Int(v, suffix), rest)) else None
  {
    hide IntSuffixText, R.IntSuffixOf, R.NumberOf, Numeral, EndsWhole, R.Decimal, StartsNumber, Signed, Decimal,
      AllDigits;
    var whole, after := Numeral(Abs(v), 10), IntSuffixText(suffix) + rest;
    SignOff(v);
    SuffixEnds(suffix, rest);
    NumberSplits(h, v < 0, whole, after);
    SuffixReads(h, suffix, rest);
    assert AtomText(Int(v, suffix)) + rest == Signed(v < 0, whole) + after;
  }

  lemma RatioReads(h: R.Host, n: int, d: int, rest: string)
    requires (Stops(rest) || R.Starts(rest, '?')) && 0 <= d
    ensures var s := AtomText(Ratio(n, d)) + rest;
            s != [] && StartsNumber(s) &&
            R.NumberOf(h, s) ==
            if d == 0 || d >= R.I64_BOUND || Abs(n) >= R.I64_BOUND then None
            else
              var g := R.Gcd(Abs(n), d);
              if g == 0 then None
              else
                var value: int := Abs(n) / g;
                Some(R.Lexed(Ratio(if n < 0 then -value else value, d / g), rest))
  {
    hide R.NumberOf, R.RatioOf, Numeral, R.Decimal, StartsNumber, Signed, Decimal, R.Gcd, AllDigits;
    var whole, denom := Numeral(Abs(n), 10), Numeral(d, 10);
    SignOff(n);
    SignOff(d);
    SlashFollows(denom, rest);
    NumberSplits(h, n < 0, whole, "/" + denom + rest);
    RatioParts(n, d, rest);
    assert Signed(false, denom) == denom by { PlainSign(denom); }
    assert AtomText(Ratio(n, d)) + rest == Signed(n < 0, whole) + ("/" + denom + rest);
  }

  lemma PlainSign(whole: string)
    ensures Signed(false, whole) == whole
  {
    assert "" + whole == whole;
  }

  lemma SlashFollows(denom: string, rest: string)
    requires AllDigits(denom)
    ensures var after := "/" + denom + rest;
            EndsWhole(after) && after != [] && R.Starts(after, '/') && after[1..] == denom + rest &&
              R.StartsWith(denom + rest, R.Digit)
  {
    var after := "/" + denom + rest;
    assert after[0] == '/' && after[1..] == denom + rest && (denom + rest)[0] == denom[0];
  }

  lemma RatioParts(n: int, d: nat, rest: string)
    requires Stops(rest) || R.Starts(rest, '?')
    ensures R.RatioOf(n < 0, Numeral(Abs(n), 10), Numeral(d, 10) + rest) ==
            if d == 0 || d >= R.I64_BOUND || Abs(n) >= R.I64_BOUND then None
            else
              var g := R.Gcd(Abs(n), d);
              if g == 0 then None
              else
                var value: int := Abs(n) / g;
                Some(R.Lexed(Ratio(if n < 0 then -value else value, d / g), rest))
  {
    hide Numeral, R.Decimal, R.Gcd, R.Run;
    NumeralDigits(Abs(n));
    NumeralDigits(d);
    RunOver(Numeral(d, 10), rest, R.DigitOrLine);
  }

  lemma {:induction false} CleanDigits(s: string)
    requires forall i | 0 <= i < |s| :: s[i] != '_'
    ensures R.Clean(s) == s
  {
    if s != [] { CleanDigits(s[..|s| - 1]); }
  }

  /** The parts of a printed float. */
  ghost predicate FloatParts(digits: string, negative: bool, whole: string, fraction: string) {
    AllDigits(whole) && AllDigits(fraction) && digits == Signed(negative, whole) + ("." + fraction)
  }

  lemma FloatSplits(digits: string) returns (negative: bool, whole: string, fraction: string)
    requires FloatShape(digits)
    ensures FloatParts(digits, negative, whole, fraction)
  {
    negative := R.Starts(digits, '-');
    hide R.Run, AllDigits, UnsignedShape;
    var t := if negative then digits[1..] else digits;
    whole, fraction := AtPoint(t);
    Resigned(digits, t, negative);
    assert Signed(negative, whole + ("." + fraction)) == Signed(negative, whole) + ("." + fraction);
  }

  lemma AtPoint(t: string) returns (whole: string, fraction: string)
    requires UnsignedShape(t)
    ensures AllDigits(whole) && AllDigits(fraction) && t == whole + ("." + fraction)
  {
    var k := R.Run(t, R.Digit);
    whole, fraction := t[..k], t[k + 1..];
  }

  lemma Resigned(digits: string, t: string, negative: bool)
    requires negative == R.Starts(digits, '-') && t == if negative then digits[1..] else digits
    ensures digits == Signed(negative, t)
  {
  }

  lemma FloatReads(h: R.Host, digits: string, suffix: Option<FloatSuffix>, rest: string)
    requires (Stops(rest) || R.Starts(rest, '?')) && FloatShape(digits) && h.float(digits) == Some(digits)
    ensures var s := AtomText(Float(digits, suffix)) + rest;
            s != [] && StartsNumber(s) && R.NumberOf(h, s) == Some(R.Lexed(Float(digits, suffix), rest))
  {
    hide R.NumberOf, R.NumberAfter, StartsNumber, FloatShape, FloatSuffixText, R.FloatSuffixOf, R.FloatOf, Signed,
      AllDigits,
      EndsWhole;
    var negative, whole, fraction := FloatSplits(digits);
    var after := FloatSuffixText(suffix) + rest;
    FloatSuffixReads(h, suffix, rest);
    FloatSuffixEnds(suffix, rest);
    PointFollows(fraction, after);
    NumberSplits(h, negative, whole, "." + fraction + after);
    PointDecides(h, negative, whole, fraction, after);
    FloatFraction(h, negative, whole, fraction, after);
    assert AtomText(Float(digits, suffix)) + rest == Signed(negative, whole) + ("." + fraction + after);
  }

  lemma PointFollows(fraction: string, after: string)
    requires AllDigits(fraction)
    ensures var s := "." + fraction + after;
            EndsWhole(s) && s != [] && R.Starts(s, '.') && s[1..] == fraction + after &&
              R.StartsWith(fraction + after, R.Digit)
  {
    var s := "." + fraction + after;
    assert s[0] == '.' && s[1..] == fraction + after && (fraction + after)[0] == fraction[0];
  }

  lemma PointDecides(h: R.Host, negative: bool, whole: string, fraction: string, after: string)
    requires AllDigits(fraction)
    ensures R.NumberAfter(h, negative, whole, "." + fraction + after) ==
            R.FloatOf(h, negative, whole, "." + fraction + after)
  {
    hide R.FloatOf, R.RatioOf, R.IntSuffixOf, R.Decimal, AllDigits, EndsWhole;
    PointFollows(fraction, after);
  }

  lemma FloatSuffixEnds(suffix: Option<FloatSuffix>, rest: string)
    requires Stops(rest) || R.Starts(rest, '?')
    ensures var after := FloatSuffixText(suffix) + rest;
            (after == [] || !R.DigitOrLine(after[0])) && !R.Starts(after, 'e') && !R.Starts(after, 'E')
  {
    if suffix.None? {
      assert "" + rest == rest;
    } else {
      assert (FloatSuffixText(suffix) + rest)[0] == FloatSuffixText(suffix)[0];
    }
  }

  lemma FloatFraction(h: R.Host, negative: bool, whole: string, fraction: string, after: string)
    requires AllDigits(whole) && AllDigits(fraction)
    requires (after == [] || !R.DigitOrLine(after[0])) && !R.Starts(after, 'e') && !R.Starts(after, 'E')
    ensures R.FloatOf(h, negative, whole, "." + fraction + after) ==
            match h.float(Signed(negative, whole) + ("." + fraction))
            case None => None
            case Some(digits) =>
              match R.FloatSuffixOf(h, after)
              case None => None
              case Some(suffix) => Some(R.Lexed(Float(digits, suffix.value), suffix.rest))
  {
    hide R.FloatSuffixOf, R.Clean, R.Run;
    var s := "." + fraction + after;
    assert s[1..] == fraction + after;
    RunOver(fraction, after, R.DigitOrLine);
    assert s[..1 + |fraction|] == "." + fraction && s[1 + |fraction|..] == after;
    CleanDigits(whole);
    CleanDigits("." + fraction);
    assert (if negative then "-" else "") + whole + ("." + fraction) + "" == Signed(negative, whole) + ("." + fraction);
    assert after[0..] == after;
  }

  // ---------------------------------------------------------------------------------------------
  // Strings
  // ---------------------------------------------------------------------------------------------

  lemma {:induction false} EscapeConcat(a: string, b: string)
    ensures Escape(a + b) == Escape(a) + Escape(b)
  {
    hide EscapeChar;
    if b == [] {
      assert a + b == a;
    } else {
      assert (a + b)[..|a + b| - 1] == a + b[..|b| - 1];
      EscapeConcat(a, b[..|b| - 1]);
    }
  }

  lemma EscapeFirst(s: string)
    requires s != []
    ensures Escape(s) == EscapeChar(s[0]) + Escape(s[1..])
  {
    hide EscapeChar;
    EscapeConcat([s[0]], s[1..]);
    assert [s[0]] + s[1..] == s && [s[0]][..0] == [];
  }

  /** Escaped text up to the closing quote, and what follows. */
  function Quoted(s: string, rest: string): string {
    Escape(s) + "\"" + rest
  }

  lemma QuotedFirst(s: string, rest: string)
    ensures s == [] ==> Quoted(s, rest) == "\"" + rest
    ensures s != [] ==> Quoted(s, rest) == EscapeChar(s[0]) + Quoted(s[1..], rest)
    ensures forall c | c == '{' || c == '}' :: R.Starts(Quoted(s, rest), c) <==> R.Starts(s, c)
  {
    if s == [] {
      assert Escape(s) == "" && "" + "\"" == "\"";
      assert Quoted(s, rest)[0] == '"';
    } else {
      EscapeFirst(s);
      assert Quoted(s, rest) == EscapeChar(s[0]) + Quoted(s[1..], rest);
      assert Quoted(s, rest)[0] == EscapeChar(s[0])[0];
    }
  }

  /** A character that is neither a brace nor needs an escape. */
  lemma PlainCharReads(c: char, text: string)
    requires c != '{' && c != '}'
    ensures R.StringOf(EscapeChar(c) + text) == R.Onto([c], R.StringOf(text))
  {
    var s := EscapeChar(c) + text;
    if EscapeChar(c) == [c] {
      assert s[0] == c && s[1..] == text;
    } else {
      assert s[0] == '\\' && s[1] == EscapeChar(c)[1] && s[2..] == text;
    }
  }

  lemma DoubledReads(c: char, text: string)
    requires c == '{' || c == '}'
    ensures R.StringOf([c, c] + text) == R.Onto([c, c], R.StringOf(text))
  {
    var s := [c, c] + text;
    assert s[0] == c && s[1] == c && s[1..][0] == c && s[2..] == text;
  }

  /** The hole that opens before `s`, when it is closed within `s`. */
  lemma HoleText(s: string, rest: string)
    requires R.Run(s, R.NotClosing) < |s|
    ensures var t, k := Quoted(s, rest), R.Run(s, R.NotClosing);
            var n := R.Run(t, R.NotClosing);
            n == |Escape(s[..k])| && t[..n] == Escape(s[..k]) && n < |t| && t[n + 1..] == Quoted(s[k + 1..], rest)
  {
    hide Escape;
    var k := R.Run(s, R.NotClosing);
    hide R.Run;
    NoClosing(s[..k]);
    QuotedSplit(s, k, rest);
    QuotedFirst(s[k..], rest);
    assert s[k..][0] == s[k] == '}' && s[k..][1..] == s[k + 1..];
    BraceEscape();
    var text := Quoted(s[k..], rest);
    assert text[0] == '}' && text[1..] == Quoted(s[k + 1..], rest);
    hide Quoted;
    RunOver(Escape(s[..k]), text, R.NotClosing);
    TailAfter(Escape(s[..k]), text);
  }

  lemma TailAfter(a: string, b: string)
    requires b != []
    ensures (a + b)[|a| + 1..] == b[1..]
  {
  }

  lemma QuotedSplit(s: string, k: nat, rest: string)
    requires k <= |s|
    ensures Quoted(s, rest) == Escape(s[..k]) + Quoted(s[k..], rest)
  {
    hide Escape;
    assert s == s[..k] + s[k..];
    EscapeConcat(s[..k], s[k..]);
  }

  /** A hole that is not closed within the string runs past the closing quote. */
  lemma OpenHole(s: string, rest: string)
    requires R.Run(s, R.NotClosing) == |s|
    ensures R.Run(Quoted(s, rest), R.NotClosing) > |Escape(s)|
  {
    hide Escape;
    assert s[..|s|] == s;
    NoClosing(s);
    var t, e := Quoted(s, rest), Escape(s);
    assert forall i | 0 <= i <= |e| :: R.NotClosing(t[i]);
  }

  lemma {:induction false} NoClosing(s: string)
    requires forall i | 0 <= i < |s| :: s[i] != '}'
    ensures forall i | 0 <= i < |Escape(s)| :: Escape(s)[i] != '}'
  {
    if s != [] { NoClosing(s[..|s| - 1]); }
  }

  lemma EscapeCharLength(c: char)
    ensures |EscapeChar(c)| >= 1 && (|EscapeChar(c)| == 1 <==> EscapeChar(c) == [c])
  {
  }

  lemma {:induction false} EscapeLength(s: string)
    ensures |Escape(s)| >= |s|
    ensures |Escape(s)| == |s| <==> Unaltered(s)
    ensures Unaltered(s) ==> Escape(s) == s
  {
    hide EscapeChar;
    if s != [] {
      var init, c := s[..|s| - 1], s[|s| - 1];
      EscapeLength(init);
      EscapeCharLength(c);
      UnalteredSnoc(s);
      assert s == init + [c];
    }
  }

  lemma UnalteredSnoc(s: string)
    requires s != []
    ensures Unaltered(s) <==> Unaltered(s[..|s| - 1]) && EscapeChar(s[|s| - 1]) == [s[|s| - 1]]
  {
    hide EscapeChar;
    var init := s[..|s| - 1];
    assert forall i | 0 <= i < |init| :: init[i] == s[i];
  }

  /**
   What reading an escaped text can give: the text itself if it folds, and otherwise more, less of the rest, or
   nothing.
  */
  predicate ReadsAs(r: R.Scan<string>, s: string, rest: string) {
    (r.Some? ==> |r.value.rest| <= |rest| && (r.value.rest == rest ==> |r.value.value| >= |s|)) &&
    (r.Some? && r.value.rest == rest && |r.value.value| == |s| ==> Folds(s)) &&
    (Folds(s) ==> r == Some(R.Lexed(s, rest)))
  }

  lemma {:induction false} StringReads(s: string, rest: string)
    ensures ReadsAs(R.StringOf(Quoted(s, rest)), s, rest)
    decreases |s|
  {
    hide R.StringOf, Escape, EscapeChar, Quoted, R.Run;
    QuotedFirst(s, rest);
    if s == [] {
      ClosingReads(rest);
    } else if s[0] == '{' {
      BraceEscape();
      if R.Starts(s[1..], '{') { TwiceReads('{', s, rest); } else { HoleReads(s, rest); }
    } else if s[0] == '}' {
      BraceEscape();
      if R.Starts(s[1..], '}') { TwiceReads('}', s, rest); } else { SingleReads(s, rest); }
    } else {
      StringReads(s[1..], rest);
      PlainCharReads(s[0], Quoted(s[1..], rest));
      assert [s[0]] + s[1..] == s;
    }
  }

  lemma BraceEscape()
    ensures EscapeChar('{') == "{" && EscapeChar('}') == "}"
  {
  }

  lemma ClosingReads(rest: string)
    ensures R.StringOf("\"" + rest) == Some(R.Lexed("", rest))
  {
    assert ("\"" + rest)[1..] == rest;
  }

  lemma {:induction false} TwiceReads(c: char, s: string, rest: string)
    requires (c == '{' || c == '}') && |s| >= 2 && s[0] == c && s[1] == c
    ensures ReadsAs(R.StringOf(Quoted(s, rest)), s, rest)
    decreases |s|, 0
  {
    hide R.StringOf, Escape, Quoted, R.Run;
    QuotedFirst(s, rest);
    QuotedFirst(s[1..], rest);
    assert s[1..][1..] == s[2..];
    StringReads(s[2..], rest);
    var text := Quoted(s[2..], rest);
    assert [c] + ([c] + text) == [c, c] + text;
    DoubledReads(c, text);
    assert [c, c] + s[2..] == s;
  }

  lemma {:induction false} SingleReads(s: string, rest: string)
    requires s != [] && s[0] == '}' && !R.Starts(s[1..], '}')
    ensures ReadsAs(R.StringOf(Quoted(s, rest)), s, rest)
    decreases |s|, 0
  {
    hide Escape, Quoted, R.Run;
    QuotedFirst(s, rest);
    QuotedFirst(s[1..], rest);
    StringReads(s[1..], rest);
    var t := Quoted(s, rest);
    assert t[0] == '}' && t[1..] == Quoted(s[1..], rest);
    assert R.StringOf(t) == R.Onto("}}", R.StringOf(Quoted(s[1..], rest)));
    hide R.StringOf;
  }

  lemma {:induction false} HoleReads(s: string, rest: string)
    requires s != [] && s[0] == '{' && !R.Starts(s[1..], '{')
    ensures ReadsAs(R.StringOf(Quoted(s, rest)), s, rest)
    decreases |s|, 0
  {
    hide R.StringOf, Escape, Quoted, R.Run, Folds, ReadsAs;
    var tail := s[1..];
    HoleStep(s, rest);
    if R.Run(tail, R.NotClosing) < |tail| {
      StringReads(tail[R.Run(tail, R.NotClosing) + 1..], rest);
      ClosedHole(s, rest);
    } else {
      UnclosedHole(s, rest);
    }
  }

  /** The step of `lex_string` at the brace that opens a hole. */
  lemma HoleStep(s: string, rest: string)
    requires s != [] && s[0] == '{' && !R.Starts(s[1..], '{')
    ensures var t := Quoted(s[1..], rest);
            var n := R.Run(t, R.NotClosing);
            R.StringOf(Quoted(s, rest)) ==
            if n == |t| then None else R.Onto("{" + t[..n] + "}", R.StringOf(t[n + 1..]))
  {
    hide Escape, Quoted, R.Run;
    QuotedFirst(s, rest);
    QuotedFirst(s[1..], rest);
    BraceEscape();
    var t := Quoted(s, rest);
    assert t[0] == '{' && t[1..] == Quoted(s[1..], rest);
  }

  lemma ClosedHole(s: string, rest: string)
    requires s != [] && s[0] == '{' && !R.Starts(s[1..], '{') && R.Run(s[1..], R.NotClosing) < |s| - 1
    requires var after := s[1..][R.Run(s[1..], R.NotClosing) + 1..];
             ReadsAs(R.StringOf(Quoted(after, rest)), after, rest)
    ensures ReadsAs(R.StringOf(Quoted(s, rest)), s, rest)
  {
    hide R.StringOf, Escape, Quoted, R.Run, Unaltered;
    HoleStep(s, rest);
    var tail := s[1..];
    var k := R.Run(tail, R.NotClosing);
    HoleText(tail, rest);
    EscapeLength(tail[..k]);
    assert s == "{" + tail[..k] + "}" + tail[k + 1..];
  }

  lemma UnclosedHole(s: string, rest: string)
    requires s != [] && s[0] == '{' && !R.Starts(s[1..], '{') && R.Run(s[1..], R.NotClosing) == |s| - 1
    ensures ReadsAs(R.StringOf(Quoted(s, rest)), s, rest)
  {
    hide R.StringOf, Escape, R.Run, Quoted;
    HoleStep(s, rest);
    OpenHole(s[1..], rest);
    QuotedLength(s[1..], rest);
  }

  lemma QuotedLength(s: string, rest: string)
    ensures |Quoted(s, rest)| == |Escape(s)| + 1 + |rest|
  {
  }

  // ---------------------------------------------------------------------------------------------
  // Characters
  // ---------------------------------------------------------------------------------------------

  lemma {:induction false} NumeralHex(n: nat)
    ensures forall i | 0 <= i < |Numeral(n, 16)| :: R.HexDigit(Numeral(n, 16)[i])
    ensures R.Hex(Numeral(n, 16)) == n
  {
    if n < 16 {
      assert [Digit(n)][..0] == [];
      assert R.Hex([Digit(n)]) == 16 * R.Hex([]) + R.HexValue(Digit(n));
    } else {
      NumeralHex(n / 16);
      var t := Numeral(n / 16, 16) + [Digit(n % 16)];
      assert t[..|t| - 1] == Numeral(n / 16, 16);
    }
  }

  function Power16(k: nat): nat {
    if k == 0 then 1 else 16 * Power16(k - 1)
  }

  lemma {:induction false} NumeralShort(n: nat, k: nat)
    requires k > 0 && n < Power16(k)
    ensures |Numeral(n, 16)| <= k
  {
    if n >= 16 {
      assert k > 1;
      NumeralShort(n / 16, k - 1);
    }
  }

  /** A character whose escape shows where it ends: `u`, a brace, digits, a brace. */
  lemma CodeReads(c: char, rest: string)
    requires Closed(Char(c))
    ensures CharText(c) == "\\u{" + Numeral(c as nat, 16) + "}"
    ensures R.CharOf("u{" + Numeral(c as nat, 16) + "}" + rest) == Some(R.Lexed(c, rest))
  {
    var digits := Numeral(c as nat, 16);
    NumeralHex(c as nat);
    assert Power16(6) == 0x100_0000;
    NumeralShort(c as nat, 6);
    hide Numeral, Power16;
    var tail := "}" + rest;
    var s := "u{" + digits + "}" + rest;
    assert tail[0] == '}' && tail[1..] == rest;
    assert s[0] == 'u' && s[1..][0] == '{' && s[2..] == digits + tail;
    RunOver(digits, tail, R.HexDigit);
    assert (digits + tail)[|digits| + 1..] == rest by { TailAfter(digits, tail); }
  }

  /** `lex_char` on a name. */
  lemma WordReads(word: string, rest: string)
    requires word != [] && word[0] != 'u' && (forall i | 0 <= i < |word| :: R.CharName(word[i])) && Stops(rest)
    ensures R.CharOf(word + rest) ==
            if word == "space" then Some(R.Lexed(' ', rest))
            else if word == "newline" then Some(R.Lexed('\n', rest))
            else if word == "tab" then Some(R.Lexed('\t', rest))
            else if |word| == 1 then Some(R.Lexed(word[0], rest))
            else None
  {
    RunOver(word, rest, R.CharName);
    hide R.Run, R.CharName;
  }

  lemma CharReads(c: char, rest: string)
    requires Follows(Char(c), rest)
    ensures CharText(c) != [] && CharText(c)[0] == '\\'
    ensures R.CharOf(CharText(c)[1..] + rest) ==
            if c != 'u' && c != '\r' && !R.Structural(c) then Some(R.Lexed(c, rest)) else None
  {
    hide Numeral, R.CharOf;
    if Closed(Char(c)) {
      CodeReads(c, rest);
      assert CharText(c)[1..] + rest == "u{" + Numeral(c as nat, 16) + "}" + rest;
    } else if c == ' ' || c == '\n' || c == '\t' || c == '\r' {
      NamedReads(c, rest);
    } else {
      assert CharText(c)[1..] == [c];
      GraphicReads(c, rest);
    }
  }

  lemma NamedReads(c: char, rest: string)
    requires (c == ' ' || c == '\n' || c == '\t' || c == '\r') && Stops(rest)
    ensures R.CharOf(CharText(c)[1..] + rest) == if c == '\r' then None else Some(R.Lexed(c, rest))
  {
    hide R.CharOf;
    match c
    case ' ' => WordReads("space", rest);
    case '\n' => WordReads("newline", rest);
    case '\t' => WordReads("tab", rest);
    case _ => WordReads("return", rest);
  }

  lemma GraphicReads(c: char, rest: string)
    requires IsAsciiGraphic(c) && Stops(rest)
    ensures R.CharOf([c] + rest) == if c == 'u' || R.Structural(c) then None else Some(R.Lexed(c, rest))
  {
    var s := [c] + rest;
    assert s[0] == c && s[1..] == rest;
    if c == 'u' {
      assert R.Run(rest, R.HexDigit) == 0;
    } else if R.Structural(c) {
      assert R.Run(s, R.CharName) == 0;
    } else {
      WordReads([c], rest);
    }
  }

  // ---------------------------------------------------------------------------------------------
  // Names
  // ---------------------------------------------------------------------------------------------

  predicate AllNameChars(h: R.Host, t: string) {
    forall i | 0 <= i < |t| :: R.NameChar(h, t[i])
  }

  lemma StopsName(h: R.Host, rest: string)
    requires Stops(rest)
    ensures rest == [] || (!R.NameChars(h)(rest[0]) && rest[0] != '/' && rest[0] != ':' && !R.NameStart(h, rest[0]))
  {
  }

  /** Names go on to the end of the text. */
  lemma NameRun(h: R.Host, t: string, rest: string)
    requires AllNameChars(h, t) && (rest == [] || !R.NameChar(h, rest[0]))
    ensures R.Run(t + rest, R.NameChars(h)) == |t| && (t + rest)[..|t|] == t && (t + rest)[|t|..] == rest
  {
    RunOver(t, rest, R.NameChars(h));
  }

  lemma PathPlain(h: R.Host, t: string, rest: string)
    requires AllNameChars(h, t) && (rest == [] || !R.NameChar(h, rest[0]))
    requires !(R.Starts(rest, '/') && R.StartsName(h, rest[1..]))
    ensures R.PathOf(h, t + rest) == R.Lexed(R.Path(None, t), rest)
  {
    NameRun(h, t, rest);
    hide R.Run, R.NameChar;
  }

  lemma PathJoined(h: R.Host, ns: string, name: string, rest: string)
    requires AllNameChars(h, ns) && Name(h, name) && (rest == [] || !R.NameChar(h, rest[0]))
    ensures R.PathOf(h, Qualified(Some(ns), name) + rest) == R.Lexed(R.Path(Some(ns), name), rest)
  {
    var tail := name + rest;
    var s := Qualified(Some(ns), name) + rest;
    assert s == ns + ("/" + tail) && ("/" + tail)[0] == '/' && ("/" + tail)[1..] == tail && tail[0] == name[0];
    NameRun(h, ns, "/" + tail);
    NameRun(h, name, rest);
    hide R.Run, R.NameChar, R.NameStart;
  }

  /** What a text that is a path consists of. */
  lemma PathParts(h: R.Host, t: string)
    requires R.PathOf(h, t).rest == ""
    ensures var path := R.PathOf(h, t).value;
            t == Qualified(path.ns, path.name) &&
            if path.ns.Some? then AllNameChars(h, path.ns.value) && Name(h, path.name)
            else AllNameChars(h, path.name)
  {
    hide R.NameStart;
    var k := R.Run(t, R.NameChars(h));
    assert AllNameChars(h, t[..k]);
    var rest := t[k..];
    if R.Starts(rest, '/') && R.StartsName(h, rest[1..]) {
      var n := R.Run(rest[1..], R.NameChars(h));
      assert rest[1..][..n] == rest[1..] by { assert rest[1..] == rest[1..][..n] + rest[1..][n..]; }
      assert t == t[..k] + "/" + rest[1..];
      assert AllNameChars(h, rest[1..][..n]);
    } else {
      assert t == t[..k] + t[k..];
    }
  }

  lemma PathExtends(h: R.Host, t: string, rest: string)
    requires R.PathOf(h, t).rest == "" && Stops(rest)
    ensures R.PathOf(h, t + rest) == R.Lexed(R.PathOf(h, t).value, rest)
  {
    hide R.PathOf, R.NameChar, R.NameStart;
    PathParts(h, t);
    StopsName(h, rest);
    var path := R.PathOf(h, t).value;
    if path.ns.Some? { PathJoined(h, path.ns.value, path.name, rest); } else { PathPlain(h, path.name, rest); }
  }

  /** The text of a symbol or keyword path is a path. */
  lemma PathReads(h: R.Host, ns: Option<string>, name: string, rest: string)
    requires Name(h, name) && (ns.Some? ==> Name(h, ns.value)) && Stops(rest)
    ensures R.PathOf(h, Qualified(ns, name) + rest) == R.Lexed(R.Path(ns, name), rest)
  {
    hide R.PathOf, R.NameChar, R.NameStart;
    StopsName(h, rest);
    if ns.Some? { PathJoined(h, ns.value, name, rest); } else { PathPlain(h, name, rest); }
  }

  /** The first character of a name decides between the branches of the lexer. */
  lemma NameOpens(h: R.Host, c: char)
    requires R.NameStart(h, c)
    ensures !R.Digit(c) && c != '"' && c != '\\' && c != ':' && c != '/' && c != '#'
    ensures !R.Blank(c) && c != '@' && c != '\'' && c != '{'
  {
  }

  lemma PathFirst(h: R.Host, ns: Option<string>, name: string, rest: string)
    requires Name(h, name) && (ns.Some? ==> Name(h, ns.value)) && Stops(rest)
    ensures var s, first := Qualified(ns, name) + rest, ns.GetOr(name);
            s != [] && s[0] == first[0] && |first| <= |s| && s[..|first|] == first &&
            (|first| < |s| ==> s[|first|] == '/' || Stops(s[|first|..]))
  {
    hide R.NameChar, R.NameStart;
    var s, first := Qualified(ns, name) + rest, ns.GetOr(name);
    if ns.Some? {
      assert s == first + ("/" + name + rest);
    } else {
      assert s == first + rest && s[|first|..] == rest;
    }
  }

  lemma SymbolPath(h: R.Host, ns: Option<string>, name: string, rest: string)
    requires Name(h, name) && FirstName(h, ns.GetOr(name)) && Stops(rest)
    ensures var s := Qualified(ns, name) + rest;
            s != [] && !R.Blank(s[0]) && R.LexOne(h, s) == R.AsLeaf(Some(R.SymbolOf(h, s)))
  {
    hide R.NameChar, R.NameStart, R.SymbolOf, R.NumberOf, R.StringOf, R.CharOf, R.KeywordOf, R.HashOf, Qualified;
    var s, first := Qualified(ns, name) + rest, ns.GetOr(name);
    PathFirst(h, ns, name, rest);
    NameOpens(h, s[0]);
    assert R.StartsWith(s[1..], R.Digit) ==> |first| > 1 && first[1] == s[1];
    NoQuotes(h, first);
    NotRaw(s, first);
  }

  lemma NotRaw(s: string, first: string)
    requires first != [] && |first| <= |s| && s[..|first|] == first && !(|first| > 2 && first[..3] == "r##")
    requires forall i | 0 <= i < |first| :: first[i] != '"'
    requires |first| < |s| ==> s[|first|] == '/' || Stops(s[|first|..])
    ensures !R.RawString(s)
  {
    assert first[0] == s[0];
    assert |first| > 1 ==> first[1] == s[1];
    assert |first| > 2 ==> first[2] == s[2] && first[..3] == [first[0], first[1], first[2]];
  }

  lemma NoQuotes(h: R.Host, t: string)
    requires Name(h, t)
    ensures forall i | 0 <= i < |t| :: t[i] != '"'
  {
  }

  lemma SymbolReads(h: R.Host, ns: Option<string>, name: string, rest: string)
    requires ReadableAtom(h, Symbol(ns, name)) && Stops(rest)
    ensures var s := Qualified(ns, name) + rest;
            s != [] && !R.Blank(s[0]) && R.LexOne(h, s) == R.Just(R.Leaf(Symbol(ns, name)), rest)
  {
    hide R.LexOne, R.PathOf, Name, FirstName, TagName, Qualified;
    if ns.Some? {
      FirstIsName(h, ns.value);
      SymbolPath(h, ns, name, rest);
      PathReads(h, ns, name, rest);
    } else if OwnToken(name) {
      OwnTokenReads(h, name, rest);
    } else if TagName(h, name) {
      TagReads(h, name, rest);
    } else {
      FirstIsName(h, name);
      SymbolPath(h, ns, name, rest);
      PathReads(h, ns, name, rest);
    }
  }

  lemma FirstIsName(h: R.Host, t: string)
    requires FirstName(h, t)
    ensures Name(h, t)
  {
  }

  lemma OwnTokenReads(h: R.Host, name: string, rest: string)
    requires OwnToken(name) && Stops(rest)
    ensures var s := Qualified(None, name) + rest;
            s != [] && !R.Blank(s[0]) && R.LexOne(h, s) == R.Just(R.Leaf(Symbol(None, name)), rest)
  {
    hide R.SymbolOf, R.NumberOf, R.StringOf, R.CharOf, R.HashOf;
    StopsName(h, rest);
    var s := name + rest;
    assert |name| == 1 && name == [name[0]] && s[0] == name[0] && s[1..] == rest;
  }

  lemma TagReads(h: R.Host, name: string, rest: string)
    requires TagName(h, name) && Stops(rest)
    ensures var s := Qualified(None, name) + rest;
            s != [] && !R.Blank(s[0]) && R.LexOne(h, s) == R.Just(R.Leaf(Symbol(None, name)), rest)
  {
    hide R.LexOne, R.HashOf, R.PathOf, R.NameStart;
    var t := name[1..];
    TagHash(h, t, rest);
    HashLex(h, t + rest);
    assert name == "#" + t && Qualified(None, name) + rest == "#" + (t + rest);
  }

  lemma HashLex(h: R.Host, tail: string)
    ensures R.LexOne(h, "#" + tail) == R.HashOf(h, tail)
  {
    hide R.SymbolOf, R.NumberOf, R.StringOf, R.CharOf, R.HashOf, R.KeywordOf;
    var s := "#" + tail;
    assert s[0] == '#' && s[1..] == tail;
  }

  lemma TagHash(h: R.Host, t: string, rest: string)
    requires R.StartsName(h, t) && t[0] != '_' && R.PathOf(h, t).rest == "" && Stops(rest)
    ensures R.HashOf(h, t + rest) == R.Just(R.Leaf(Symbol(None, "#" + t)), rest)
  {
    hide R.PathOf, R.NameStart, R.NameChar, Name, AllNameChars;
    PathExtends(h, t, rest);
    PathParts(h, t);
    NameOpens(h, t[0]);
    var s := t + rest;
    assert s[0] == t[0];
    var path := R.PathOf(h, t).value;
    assert (if path.ns.Some? then path.ns.value + "/" + path.name else path.name) == t;
  }

  lemma KeywordReads(h: R.Host, ns: Option<string>, name: string, rest: string)
    requires Name(h, name) && (ns.Some? ==> Name(h, ns.value)) && Stops(rest)
    ensures var s := ":" + Qualified(ns, name) + rest;
            R.LexOne(h, s) == R.Just(R.Leaf(Keyword(ns, name)), rest)
  {
    hide Name, R.PathOf, R.SymbolOf, R.NumberOf, R.StringOf, R.CharOf, R.HashOf, Qualified, R.NameStart;
    var t := Qualified(ns, name) + rest;
    var s := ":" + Qualified(ns, name) + rest;
    assert s[0] == ':' && s[1..] == t;
    PathReads(h, ns, name, rest);
    PathFirst(h, ns, name, rest);
    assert R.StartsName(h, t) by { NameStarts(h, ns.GetOr(name)); }
    NameOpens(h, t[0]);
  }

  lemma NameStarts(h: R.Host, t: string)
    requires Name(h, t)
    ensures R.StartsName(h, t)
  {
  }

  lemma Unqualified(name: string)
    ensures Qualified(None, name) == name
  {
  }

  lemma WordAtomReads(h: R.Host, name: string, rest: string)
    requires Reserved(name) && Stops(rest)
    ensures name != [] && !R.Blank(name[0])
    ensures R.LexOne(h, name + rest) ==
            R.Just(R.Leaf(if name == "true" then Bool(true) else if name == "false" then Bool(false) else Unit), rest)
  {
    hide R.LexOne, R.PathOf, Qualified;
    assert FirstName(h, name) && Name(h, name);
    Unqualified(name);
    SymbolPath(h, None, name, rest);
    PathReads(h, None, name, rest);
  }

  // ---------------------------------------------------------------------------------------------
  // Atoms
  // ---------------------------------------------------------------------------------------------

  lemma NumberLex(h: R.Host, s: string)
    requires s != [] && StartsNumber(s)
    ensures R.LexOne(h, s) == R.AsLeaf(R.NumberOf(h, s)) && !R.Blank(s[0])
  {
    hide R.NumberOf;
  }

  /** A string literal is read by `lex_string`: its text never starts like a triple-quoted one. */
  lemma StringLex(h: R.Host, s: string, rest: string)
    requires !R.Starts(rest, '"')
    ensures R.LexOne(h, StrText(s) + rest) ==
            match R.StringOf(Quoted(s, rest))
            case None => None
            case Some(l) => R.Just(R.Leaf(Str(l.value)), l.rest)
  {
    hide R.SymbolOf, R.NumberOf, R.StringOf, R.CharOf, R.HashOf, R.KeywordOf, Escape, EscapeChar;
    var text := StrText(s) + rest;
    QuotedSecond(s, rest);
    assert text[0] == '"' && text[1..] == Quoted(s, rest);
    assert |text| >= 3 ==> text[1] == Quoted(s, rest)[0] && text[2] == Quoted(s, rest)[1];
  }

  lemma QuotedSecond(s: string, rest: string)
    requires !R.Starts(rest, '"')
    ensures var t := Quoted(s, rest); t != [] && !(|t| >= 2 && t[0] == '"' && t[1] == '"')
  {
    QuotedFirst(s, rest);
    hide Escape, Quoted;
    if s != [] {
      assert EscapeChar(s[0])[0] != '"';
    }
  }

  lemma CharLex(h: R.Host, c: char, rest: string)
    requires CharText(c) != [] && CharText(c)[0] == '\\'
    ensures R.LexOne(h, CharText(c) + rest) ==
            match R.CharOf(CharText(c)[1..] + rest)
            case None => None
            case Some(l) => R.Just(R.Leaf(Char(l.value)), l.rest)
  {
    hide R.SymbolOf, R.NumberOf, R.StringOf, R.CharOf, R.HashOf, R.KeywordOf, CharText;
    var text := CharText(c) + rest;
    assert text[0] == '\\' && text[1..] == CharText(c)[1..] + rest;
  }

  predicate NoBlank(s: string) {
    s != [] && !R.Blank(s[0])
  }

  lemma FirstKept(s: string, rest: string)
    requires s != []
    ensures (s + rest)[0] == s[0]
  {
  }

  lemma NumberTexts(a: Atom)
    requires a.Int? || a.Ratio? || (a.Float? && FloatShape(a.digits))
    ensures AtomText(a) != []
  {
    hide Decimal;
    match a
    case Int(v, _) => DecimalPlain(v);
    case Ratio(n, _) => DecimalPlain(n);
    case Float(digits, _) =>
  }

  lemma NumberAtomReads(h: R.Host, a: Atom, rest: string)
    requires (a.Int? || a.Ratio? || a.Float?) && ReadableAtom(h, a) && Follows(a, rest)
    ensures NoBlank(AtomText(a)) && R.LexOne(h, AtomText(a) + rest) == R.Just(R.Leaf(a), rest)
  {
    hide AtomText, R.LexOne, R.NumberOf, FloatShape, R.Gcd;
    NumberTexts(a);
    FirstKept(AtomText(a), rest);
    match a {
      case Int(v, suffix) => IntReads(h, v, suffix, rest);
      case Ratio(n, d) => RatioReads(h, n, d, rest);
      case Float(digits, suffix) => FloatReads(h, digits, suffix, rest);
    }
    NumberLex(h, AtomText(a) + rest);
  }

  /** Readable atoms are read back, whatever follows that may follow. */
  lemma AtomLexes(h: R.Host, a: Atom, rest: string)
    requires ReadableAtom(h, a) && Follows(a, rest)
    ensures NoBlank(AtomText(a)) && R.LexOne(h, AtomText(a) + rest) == R.Just(R.Leaf(a), rest)
  {
    hide R.LexOne, R.StringOf, R.CharOf, Quoted, CharText, Name, FirstName, TagName, Folds, Qualified;
    match a
    case Char(c) =>
      CharReads(c, rest);
      CharLex(h, c, rest);
    case Str(s) =>
      StringReads(s, rest);
      StringLex(h, s, rest);
    case Bool(b) => WordAtomReads(h, if b then "true" else "false", rest);
    case Unit => WordAtomReads(h, "unit", rest);
    case Keyword(ns, name) => KeywordReads(h, ns, name, rest);
    case Symbol(ns, name) =>
      SymbolReads(h, ns, name, rest);
      SymbolText(h, ns, name);
    case _ => NumberAtomReads(h, a, rest);
  }

  lemma SymbolText(h: R.Host, ns: Option<string>, name: string)
    requires ReadableAtom(h, Symbol(ns, name))
    ensures NoBlank(Qualified(ns, name))
  {
    SymbolReads(h, ns, name, "");
    assert Qualified(ns, name) + "" == Qualified(ns, name);
  }

  // ---------------------------------------------------------------------------------------------
  // Exactly the readable atoms
  // ---------------------------------------------------------------------------------------------

  ghost predicate ReadsBack(h: R.Host, a: Atom) {
    AtomText(a) != [] && R.LexOne(h, AtomText(a)) == R.Just(R.Leaf(a), "")
  }

  /** Whatever the lexer takes for a path is one. */
  lemma PathNames(h: R.Host, s: string)
    requires R.StartsName(h, s) && R.PathOf(h, s).rest == ""
    ensures var path := R.PathOf(h, s).value;
            s == Qualified(path.ns, path.name) && Name(h, path.name) && (path.ns.Some? ==> Name(h, path.ns.value)) &&
            path.ns.GetOr(path.name)[0] == s[0]
  {
    PathParts(h, s);
    var path := R.PathOf(h, s).value;
    if path.ns.Some? {
      FirstNotEmpty(h, s);
      assert s[0] == path.ns.value[0];
    }
    hide R.PathOf, R.NameStart, R.NameChar;
  }

  lemma FirstNotEmpty(h: R.Host, s: string)
    requires R.StartsName(h, s) && R.PathOf(h, s).value.ns.Some?
    ensures R.PathOf(h, s).value.ns.value != ""
  {
    assert R.NameChars(h)(s[0]);
  }

  /** A symbol that the lexer reads is readable. */
  lemma ReadSymbolFits(h: R.Host, s: string, ns: Option<string>, name: string)
    requires s != [] && R.LexOne(h, s) == R.Just(R.Leaf(Symbol(ns, name)), "")
    ensures ReadableAtom(h, Symbol(ns, name))
  {
    hide R.PathOf, Name, TagName, R.NameChar, R.Run, R.StringOf, R.CharOf, Qualified, R.NumberOf;
    var c := s[0];
    if StartsNumber(s) {
      NumbersOnly(h, s);
    } else if c == ':' {
      ColonSymbol(h, s[1..]);
    } else if R.NameStart(h, c) {
      NameOpens(h, c);
      ReadNameFits(h, s, ns, name);
    } else if c == '#' {
      ReadTagFits(h, s[1..], ns, name);
    } else {
      assert [c] == name;
    }
  }

  lemma ColonSymbol(h: R.Host, s: string)
    ensures R.KeywordOf(h, s).value.Symbol? ==> R.KeywordOf(h, s).value == Symbol(None, ":")
  {
  }

  lemma NumbersOnly(h: R.Host, s: string)
    requires s != [] && StartsNumber(s)
    ensures R.LexOne(h, s).Some? ==>
            !R.LexOne(h, s).value.value.atom.Symbol? && !R.LexOne(h, s).value.value.atom.Keyword?
    ensures R.LexOne(h, s).Some? ==> R.LexOne(h, s).value.value.Leaf?
  {
    hide R.Run, R.Decimal, R.IntSuffixOf, R.FloatSuffixOf, R.Gcd, R.Clean;
  }

  lemma ReadNameFits(h: R.Host, s: string, ns: Option<string>, name: string)
    requires R.StartsName(h, s) && !StartsNumber(s) && s[0] != ':' && s[0] != '"' && s[0] != '\\'
    requires R.LexOne(h, s) == R.Just(R.Leaf(Symbol(ns, name)), "")
    ensures FirstName(h, ns.GetOr(name)) && Name(h, name) && (ns.None? ==> !Reserved(name))
  {
    hide FirstName, R.PathOf, R.NameStart, R.NameChar, R.NumberOf, R.StringOf, R.CharOf, R.HashOf, R.KeywordOf, Name;
    assert !R.RawString(s) && R.SymbolOf(h, s) == R.Lexed(Symbol(ns, name), "");
    var path := R.PathOf(h, s).value;
    PathNames(h, s);
    assert path == R.Path(ns, name);
    var first := ns.GetOr(name);
    assert first != [] && |first| <= |s| && s[..|first|] == first by {
      NameStarts(h, first);
      if ns.Some? { assert s == first + ("/" + name); } else { assert s == first; }
    }
    FirstFits(h, s, first);
  }

  lemma FirstFits(h: R.Host, s: string, first: string)
    requires Name(h, first) && !StartsNumber(s) && !R.RawString(s) && |first| <= |s| && s[..|first|] == first
    ensures FirstName(h, first)
  {
    hide R.NameChar, R.NameStart;
    assert forall i | 0 <= i < |first| :: first[i] == s[i];
    assert |first| > 2 ==> first[..3] == [first[0], first[1], first[2]];
    assert |first| > 1 ==> s[1..][0] == s[1];
    assert |first| > 2 ==> s[1..][1] == s[2];
  }

  lemma ReadTagFits(h: R.Host, s: string, ns: Option<string>, name: string)
    requires R.HashOf(h, s) == R.Just(R.Leaf(Symbol(ns, name)), "")
    ensures ns == None && TagName(h, name)
  {
    hide R.PathOf, R.NameStart, R.NameChar;
    PathNames(h, s);
    var path := R.PathOf(h, s).value;
    assert name == "#" + s by { if path.ns.Some? { assert s == path.ns.value + "/" + path.name; } }
    assert name[1..] == s;
  }

  lemma ReadKeywordFits(h: R.Host, ns: Option<string>, name: string)
    requires ReadsBack(h, Keyword(ns, name))
    ensures ReadableAtom(h, Keyword(ns, name))
  {
    hide R.PathOf, R.NumberOf, R.StringOf, R.CharOf, R.HashOf, R.NameStart, R.NameChar, Name, R.SymbolOf;
    var s, t := ":" + Qualified(ns, name), Qualified(ns, name);
    assert s[0] == ':' && s[1..] == t;
    assert R.KeywordOf(h, t) == R.Lexed(Keyword(ns, name), "");
    KeywordNames(h, t, ns, name);
  }

  lemma KeywordNames(h: R.Host, t: string, ns: Option<string>, name: string)
    requires R.KeywordOf(h, t) == R.Lexed(Keyword(ns, name), "") && t == Qualified(ns, name)
    ensures Name(h, name) && (ns.Some? ==> Name(h, ns.value))
  {
    hide R.PathOf, R.NameStart, R.NameChar, Name;
    AutoKeyword(h, t, ns, name);
    PathNames(h, t);
  }

  /** The text of a keyword never reads as an auto-namespaced one of the same name. */
  lemma AutoKeyword(h: R.Host, t: string, ns: Option<string>, name: string)
    requires R.KeywordOf(h, t) == R.Lexed(Keyword(ns, name), "")
    ensures R.Starts(t, ':') ==> ns == None && |t| == |name| + 1
  {
    hide R.NameStart, R.PathOf;
    var k := if t == [] then 0 else R.Run(t[1..], R.NameChars(h));
    assert R.Starts(t, ':') ==> t[1..] == t[1..][..k] + t[1..][k..];
  }

  lemma RatioDenom(h: R.Host, s: string)
    requires s != [] && StartsNumber(s) && R.NumberOf(h, s).Some? && R.NumberOf(h, s).value.value.Ratio?
    ensures R.NumberOf(h, s).value.value.denom >= 0
  {
    hide R.Run, R.Decimal, R.IntSuffixOf, R.FloatSuffixOf, R.Gcd, R.FloatOf, R.DigitOrLine;
    FloatsOnly(h);
  }

  lemma FloatsOnly(h: R.Host)
    ensures forall negative, whole, s ::
              R.FloatOf(h, negative, whole, s).Some? ==> R.FloatOf(h, negative, whole, s).value.value.Float?
  {
    hide R.Run, R.FloatSuffixOf, R.Clean;
  }

  lemma NonNegativeDenom(h: R.Host, s: string, n: int, d: int)
    requires s != [] && R.LexOne(h, s) == R.Just(R.Leaf(Ratio(n, d)), "")
    ensures d >= 0
  {
    hide R.StringOf, R.CharOf, R.PathOf, R.NameStart, R.NumberOf, R.HashOf;
    HashSymbols(h, s[1..]);
    if StartsNumber(s) { RatioDenom(h, s); }
  }

  lemma HashSymbols(h: R.Host, s: string)
    ensures R.HashOf(h, s).Some? && R.HashOf(h, s).value.value.Leaf? ==> R.HashOf(h, s).value.value.atom.Symbol?
  {
    hide R.PathOf, R.NameStart;
  }

  lemma OwnQuotient(d: int, g: nat)
    requires d > 0 && g > 0 && d / g == d
    ensures g == 1
  {
    var q := d / g;
    QuotientBound(d, g);
    FullQuotient(d, g, q);
  }

  lemma QuotientBound(d: int, g: nat)
    requires g > 0
    ensures g * (d / g) <= d
  {
  }

  lemma FullQuotient(d: int, g: nat, q: int)
    requires d > 0 && g > 0 && g * q <= d && q == d
    ensures g == 1
  {
  }

  lemma RatioReadsBack(h: R.Host, n: int, d: int)
    ensures ReadsBack(h, Ratio(n, d)) <==> ReadableAtom(h, Ratio(n, d))
  {
    hide R.LexOne, R.NumberOf, AtomText, R.Gcd, StartsNumber;
    var s := AtomText(Ratio(n, d));
    NumberTexts(Ratio(n, d));
    if d < 0 {
      if R.LexOne(h, s) == R.Just(R.Leaf(Ratio(n, d)), "") { NonNegativeDenom(h, s, n, d); }
    } else {
      assert s + "" == s;
      RatioReads(h, n, d, "");
      NumberLex(h, s);
      var g := R.Gcd(Abs(n), d);
      if d > 0 && g > 0 && d / g == d { OwnQuotient(d, g); }
    }
  }

  lemma StringReadsBack(h: R.Host, s: string)
    ensures ReadsBack(h, Str(s)) <==> Folds(s)
  {
    hide R.LexOne, R.StringOf, Quoted, Folds, StrText;
    assert AtomText(Str(s)) + "" == AtomText(Str(s)) == StrText(s);
    assert StrText(s) != [] by { QuoteText(s); }
    StringReads(s, "");
    StringLex(h, s, "");
  }

  lemma QuoteText(s: string)
    ensures StrText(s) != []
  {
  }

  /** An atom is read back from its own text exactly when it is readable. */
  lemma AtomReadsBack(h: R.Host, a: Atom)
    requires !a.Float?
    ensures ReadsBack(h, a) <==> ReadableAtom(h, a)
  {
    hide R.LexOne, R.CharOf, CharText, Name, FirstName, TagName, Folds, Qualified, StartsNumber, R.NumberOf, Decimal;
    assert AtomText(a) + "" == AtomText(a);
    match a
    case Int(v, suffix) =>
      NumberTexts(a);
      IntReads(h, v, suffix, "");
      NumberLex(h, AtomText(a));
    case Ratio(n, d) => RatioReadsBack(h, n, d);
    case Char(c) =>
      CharReads(c, "");
      CharLex(h, c, "");
    case Str(s) => StringReadsBack(h, s);
    case Keyword(ns, name) =>
      if ReadsBack(h, a) { ReadKeywordFits(h, ns, name); }
      if ReadableAtom(h, a) { AtomLexes(h, a, ""); }
    case Symbol(ns, name) =>
      if ReadsBack(h, a) { ReadSymbolFits(h, AtomText(a), ns, name); }
      if ReadableAtom(h, a) { AtomLexes(h, a, ""); }
    case _ => AtomLexes(h, a, "");
  }

  /** A float whose digits are what it is printed with is read back. */
  lemma FloatReadsBack(h: R.Host, digits: string, suffix: Option<FloatSuffix>)
    requires FloatShape(digits) && h.float(digits) == Some(digits)
    ensures ReadsBack(h, Float(digits, suffix))
  {
    hide R.LexOne, FloatShape, AtomText;
    AtomLexes(h, Float(digits, suffix), "");
    assert AtomText(Float(digits, suffix)) + "" == AtomText(Float(digits, suffix));
  }
}
