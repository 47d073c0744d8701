/**
 Reading text back into trees: the lexer (crates/nexl-reader/src/lexer.rs) as a function from text to lexemes, and the
 reader (crates/nexl-reader/src/reader.rs) as a function from lexemes to trees. Comments, raw and triple-quoted strings,
 regular expressions, reader extensions with text, and numbers in other bases are not modelled: they read as `None`.
*/
module Reader {
  import opened Basics
  import opened Ast

  /** Letters beyond ASCII, and the printed digits of the float that a numeral denotes. */
  datatype Host = Host(wideLetter: char -> bool, float: string -> Option<string>)

  datatype Bracket = Round | Square | Curly | HashCurly

  datatype Lexeme =
    | Open(bracket: Bracket)
    | Close(bracket: Bracket)
    | Mark(prefix: Prefix)
    | Leaf(atom: Atom)

  // ---------------------------------------------------------------------------------------------
  // Characters
  // ---------------------------------------------------------------------------------------------

  predicate Digit(c: char) {
    '0' <= c <= '9'
  }

  predicate DigitOrLine(c: char) {
    Digit(c) || c == '_'
  }

  predicate HexDigit(c: char) {
    Digit(c) || 'a' <= c <= 'f' || 'A' <= c <= 'F'
  }

  /** `char::is_alphabetic`. */
  predicate Letter(h: Host, c: char) {
    if c as int < 0x80 then 'a' <= c <= 'z' || 'A' <= c <= 'Z' else h.wideLetter(c)
  }

  /** `is_symbol_start`. */
  predicate NameStart(h: Host, c: char) {
    Letter(h, c) || c in {'_', '?', '!', '*', '+', '<', '>', '=', '-', '&'}
  }

  /** `is_symbol_cont`. */
  predicate NameChar(h: Host, c: char) {
    NameStart(h, c) || Digit(c) || c == '#' || c == '.'
  }

  /** `is_ascii_whitespace`, and the comma. */
  predicate Blank(c: char) {
    c == ' ' || c == '\t' || c == '\n' || c == '\U{C}' || c == '\r' || c == ','
  }

  /** `is_structural`. */
  predicate Structural(c: char) {
    c in {'(', ')', '[', ']', '{', '}', '"'}
  }

  /** A character of a character name. */
  predicate CharName(c: char) {
    !(Blank(c) && c != ',') && !Structural(c)
  }

  /** `collect_while`: the length of the longest prefix of such characters. */
  function Run(s: string, p: char -> bool): (k: nat)
    ensures k <= |s| && (forall i | 0 <= i < k :: p(s[i])) && (k < |s| ==> !p(s[k]))
  {
    if s == [] || !p(s[0]) then 0 else 1 + Run(s[1..], p)
  }

  function NameChars(h: Host): char -> bool {
    c => NameChar(h, c)
  }

  predicate StartsName(h: Host, s: string) {
    s != [] && NameStart(h, s[0])
  }

  predicate Starts(s: string, c: char) {
    s != [] && s[0] == c
  }

  predicate StartsWith(s: string, p: char -> bool) {
    s != [] && p(s[0])
  }

  // ---------------------------------------------------------------------------------------------
  // Lexer
  // ---------------------------------------------------------------------------------------------

  /** A part that has been read, and the text after it. */
  datatype Lexed<+T> = Lexed(value: T, rest: string)

  type Scan<+T> = Option<Lexed<T>>

  function Decimal(s: string): nat {
    if s == [] then 0
    else
      var init, c := s[..|s| - 1], s[|s| - 1];
      if Digit(c) then 10 * Decimal(init) + (c - '0') as nat else Decimal(init)
  }

  /** Without `_`. */
  function Clean(s: string): string {
    if s == [] then "" else Clean(s[..|s| - 1]) + if s[|s| - 1] == '_' then "" else [s[|s| - 1]]
  }

  const I128_LIMIT := 0x8000_0000_0000_0000_0000_0000_0000_0000

  const I64_BOUND := 0x8000_0000_0000_0000

  /** What follows a numeral must not be glued to it. */
  predicate Glued(h: Host, s: string) {
    s != [] && (Letter(h, s[0]) || s[0] == '_')
  }

  /** `lex_int_suffix`. */
  function IntSuffixOf(h: Host, s: string): (r: Scan<Option<IntSuffix>>)
    ensures r.Some? ==> |r.value.rest| <= |s|
  {
    if Starts(s, 'i') || Starts(s, 'u') then
      var k := Run(s[1..], Digit);
      var width, rest, signed := s[1..][..k], s[1..][k..], s[0] == 'i';
      if width == "8" then Some(Lexed(Some(if signed then I8 else U8), rest))
      else if width == "16" then Some(Lexed(Some(if signed then I16 else U16), rest))
      else if width == "32" then Some(Lexed(Some(if signed then I32 else U32), rest))
      else if width == "64" then Some(Lexed(Some(if signed then I64 else U64), rest))
      else None
    else if Glued(h, s) then None
    else Some(Lexed(None, s))
  }

  /** `lex_float_suffix`. */
  function FloatSuffixOf(h: Host, s: string): (r: Scan<Option<FloatSuffix>>)
    ensures r.Some? ==> |r.value.rest| <= |s|
  {
    if Starts(s, 'f') then
      var k := Run(s[1..], Digit);
      var width, rest := s[1..][..k], s[1..][k..];
      if width == "32" then Some(Lexed(Some(F32), rest))
      else if width == "64" then Some(Lexed(Some(F64), rest))
      else None
    else if Glued(h, s) then None
    else Some(Lexed(None, s))
  }

  function Gcd(a: nat, b: nat): nat
    decreases b
  {
    if b == 0 then a else Gcd(b, a % b)
  }

  /** `lex_number`; the reader reduces ratios. */
  function NumberOf(h: Host, s: string): (r: Scan<Atom>)
    requires StartsWith(s, Digit) || (Starts(s, '-') && StartsWith(s[1..], Digit))
    ensures r.Some? ==> |r.value.rest| < |s|
  {
    var negative := s[0] == '-';
    var t := if negative then s[1..] else s;
    if |t| >= 2 && t[0] == '0' && t[1] in {'x', 'X', 'b', 'B', 'o', 'O'} then None
    else
      var k := Run(t, DigitOrLine);
      NumberAfter(h, negative, t[..k], t[k..])
  }

  /** The part of `lex_number` after the whole part: a ratio, a float or an integer. */
  function NumberAfter(h: Host, negative: bool, whole: string, rest: string): (r: Scan<Atom>)
    ensures r.Some? ==> |r.value.rest| <= |rest|
  {
    if Starts(rest, '/') && StartsWith(rest[1..], Digit) then RatioOf(negative, whole, rest[1..])
    else if (Starts(rest, '.') && StartsWith(rest[1..], Digit)) || Starts(rest, 'e') || Starts(rest, 'E') then
      FloatOf(h, negative, whole, rest)
    else if Decimal(whole) >= I128_LIMIT then None
    else
      match IntSuffixOf(h, rest)
      case None => None
      case Some(suffix) =>
        var value: int := Decimal(whole);
        Some(Lexed(Int(if negative then -value else value, suffix.value), suffix.rest))
  }

  /** `lex_ratio_from` and `reduce_ratio`. */
  function RatioOf(negative: bool, whole: string, s: string): (r: Scan<Atom>)
    ensures r.Some? ==> |r.value.rest| <= |s|
  {
    var k := Run(s, DigitOrLine);
    var numer, denom := Decimal(whole), Decimal(s[..k]);
    if denom >= I64_BOUND || denom == 0 || numer >= I64_BOUND then None
    else
      var g := Gcd(numer, denom);
      if g == 0 then None
      else Some(Lexed(Ratio(if negative then -(numer / g) else numer / g, denom / g), s[k..]))
  }

  /** `lex_float_from`: a fraction, an exponent, or both. */
  function FloatOf(h: Host, negative: bool, whole: string, s: string): (r: Scan<Atom>)
    ensures r.Some? ==> |r.value.rest| <= |s|
  {
    var k := if Starts(s, '.') then 1 + Run(s[1..], DigitOrLine) else 0;
    var fraction, after := Clean(s[..k]), s[k..];
    var e := if Starts(after, 'e') || Starts(after, 'E') then 1 else 0;
    var g := if e == 1 && (Starts(after[1..], '+') || Starts(after[1..], '-')) then 2 else e;
    var n := if e == 1 then g + Run(after[g..], Digit) else 0;
    var exponent := if e == 1 then "e" + after[1..n] else "";
    match h.float((if negative then "-" else "") + Clean(whole) + fraction + exponent)
    case None => None
    case Some(digits) =>
      match FloatSuffixOf(h, after[n..])
      case None => None
      case Some(suffix) => Some(Lexed(Float(digits, suffix.value), suffix.rest))
  }

  /** What an escape sequence stands for. */
  function Unescaped(c: char): Option<char> {
    match c
    case 'n' => Some('\n')
    case 't' => Some('\t')
    case 'r' => Some('\r')
    case '\\' => Some('\\')
    case '"' => Some('"')
    case '{' => Some('{')
    case _ => None
  }

  /** `reassemble_str`: literal braces are doubled, since the tree keeps interpolation holes as text. */
  function Doubled(c: char): string {
    if c == '{' then "{{" else if c == '}' then "}}" else [c]
  }

  function Onto(text: string, after: Scan<string>): Scan<string> {
    match after
    case None => None
    case Some(l) => Some(Lexed(text + l.value, l.rest))
  }

  predicate NotClosing(c: char) {
    c != '}'
  }

  /** `lex_string` after the opening quote: escapes, doubled braces and interpolation holes, up to the closing quote. */
  function StringOf(s: string): (r: Scan<string>)
    ensures r.Some? ==> |r.value.rest| <= |s|
    decreases |s|
  {
    if s == [] then None
    else if s[0] == '"' then Some(Lexed("", s[1..]))
    else if s[0] == '\\' then
      if |s| < 2 then None
      else
        match Unescaped(s[1])
        case None => None
        case Some(c) => Onto(Doubled(c), StringOf(s[2..]))
    else if s[0] == '{' then
      if Starts(s[1..], '{') then Onto("{{", StringOf(s[2..]))
      else
        var k := Run(s[1..], NotClosing);
        if k == |s| - 1 then None else Onto("{" + s[1..][..k] + "}", StringOf(s[1..][k + 1..]))
    else if s[0] == '}' then Onto("}}", StringOf(if Starts(s[1..], '}') then s[2..] else s[1..]))
    else Onto([s[0]], StringOf(s[1..]))
  }

  function HexValue(c: char): nat
    requires HexDigit(c)
  {
    if Digit(c) then (c - '0') as nat else if 'a' <= c then (c - 'a') as nat + 10 else (c - 'A') as nat + 10
  }

  function Hex(s: string): nat
    requires forall i | 0 <= i < |s| :: HexDigit(s[i])
  {
    if s == [] then 0 else 16 * Hex(s[..|s| - 1]) + HexValue(s[|s| - 1])
  }

  /** `lex_char` after the backslash. */
  function CharOf(s: string): (r: Scan<char>)
    ensures r.Some? ==> |r.value.rest| <= |s|
  {
    if s == [] then None
    else if s[0] == 'u' then
      var braced := Starts(s[1..], '{');
      var digits := if braced then s[2..] else s[1..];
      var k := Run(digits, HexDigit);
      if braced && (k == 0 || k > 6 || !Starts(digits[k..], '}')) then None
      else if !braced && k != 4 then None
      else
        var code := Hex(digits[..k]);
        if 0xD800 <= code < 0xE000 || code >= 0x11_0000 then None
        else Some(Lexed(code as char, if braced then digits[k + 1..] else digits[k..]))
    else
      var k := Run(s, CharName);
      var word, rest := s[..k], s[k..];
      if word == "space" then Some(Lexed(' ', rest))
      else if word == "newline" then Some(Lexed('\n', rest))
      else if word == "tab" then Some(Lexed('\t', rest))
      else if k == 1 then Some(Lexed(s[0], rest))
      else None
  }

  /** A name, or two joined by `/`. */
  datatype Path = Path(ns: Option<string>, name: string)

  function PathOf(h: Host, s: string): (r: Lexed<Path>)
    ensures |r.rest| <= |s| && (StartsName(h, s) ==> |r.rest| < |s|)
  {
    var k := Run(s, NameChars(h));
    var first, rest := s[..k], s[k..];
    if Starts(rest, '/') && StartsName(h, rest[1..]) then
      var n := Run(rest[1..], NameChars(h));
      Lexed(Path(Some(first), rest[1..][..n]), rest[1..][n..])
    else Lexed(Path(None, first), rest)
  }

  /** `lex_keyword` after the colon. */
  function KeywordOf(h: Host, s: string): (r: Lexed<Atom>)
    ensures |r.rest| <= |s|
  {
    var auto := Starts(s, ':');
    var t := if auto then s[1..] else s;
    if !StartsName(h, t) then Lexed(Symbol(None, ":"), t)
    else if auto then
      var k := Run(t, NameChars(h));
      Lexed(Keyword(None, t[..k]), t[k..])
    else
      var path := PathOf(h, t);
      Lexed(Keyword(path.value.ns, path.value.name), path.rest)
  }

  /** `lex_symbol`, with the reserved words. */
  function SymbolOf(h: Host, s: string): (r: Lexed<Atom>)
    ensures |r.rest| <= |s| && (StartsName(h, s) ==> |r.rest| < |s|)
  {
    var path := PathOf(h, s);
    var atom :=
      if path.value.ns.None? && path.value.name == "true" then Bool(true)
      else if path.value.ns.None? && path.value.name == "false" then Bool(false)
      else if path.value.ns.None? && path.value.name == "unit" then Unit
      else Symbol(path.value.ns, path.value.name);
    Lexed(atom, path.rest)
  }

  /** `r"` and `r#"` open raw strings. */
  predicate RawString(s: string) {
    Starts(s, 'r') && (Starts(s[1..], '"') || (Starts(s[1..], '#') && |s| > 2 && (s[2] == '"' || s[2] == '#')))
  }

  function AsLeaf(scan: Scan<Atom>): Scan<Lexeme> {
    match scan
    case None => None
    case Some(l) => Some(Lexed(Leaf(l.value), l.rest))
  }

  function Just(l: Lexeme, rest: string): Scan<Lexeme> {
    Some(Lexed(l, rest))
  }

  /** `#` and what it dispatches on. */
  function HashOf(h: Host, s: string): (r: Scan<Lexeme>)
    ensures r.Some? ==> |r.value.rest| <= |s|
  {
    if Starts(s, '_') then Just(Mark(Discard), s[1..])
    else if Starts(s, '{') then Just(Open(HashCurly), s[1..])
    else if !StartsName(h, s) then None
    else
      var path := PathOf(h, s);
      if Starts(path.rest, '[') || Starts(path.rest, '(') || Starts(path.rest, '"') then None
      else
        var name := if path.value.ns.Some? then path.value.ns.value + "/" + path.value.name else path.value.name;
        Just(Leaf(Symbol(None, "#" + name)), path.rest)
  }

  /** `lex_token`. */
  function LexOne(h: Host, s: string): (r: Scan<Lexeme>)
    requires s != []
    ensures r.Some? ==> |r.value.rest| < |s|
  {
    var c, rest := s[0], s[1..];
    if Digit(c) || (c == '-' && StartsWith(rest, Digit)) then AsLeaf(NumberOf(h, s))
    else if c == '"' then
      if |s| >= 3 && s[1] == '"' && s[2] == '"' then None
      else
        match StringOf(rest)
        case None => None
        case Some(l) => Just(Leaf(Str(l.value)), l.rest)
    else if c == '\\' then
      match CharOf(rest)
      case None => None
      case Some(l) => Just(Leaf(Char(l.value)), l.rest)
    else if c == ':' then AsLeaf(Some(KeywordOf(h, rest)))
    else if NameStart(h, c) then if RawString(s) then None else AsLeaf(Some(SymbolOf(h, s)))
    else if c == '\'' then Just(Mark(Quote), rest)
    else if c == '@' then Just(Mark(Deref), rest)
    else if c == '#' then HashOf(h, rest)
    else if c == '`' then Just(Mark(Quasiquote), rest)
    else if c == '~' then
      if Starts(rest, '@') then Just(Mark(UnquoteSplice), rest[1..]) else Just(Mark(Unquote), rest)
    else if c == '.' || c == '|' || c == '/' then Just(Leaf(Symbol(None, [c])), rest)
    else if c == '(' then Just(Open(Round), rest)
    else if c == ')' then Just(Close(Round), rest)
    else if c == '[' then Just(Open(Square), rest)
    else if c == ']' then Just(Close(Square), rest)
    else if c == '{' then Just(Open(Curly), rest)
    else if c == '}' then Just(Close(Curly), rest)
    else None
  }

  /** `tokenize`. */
  function Lexemes(h: Host, s: string): Option<seq<Lexeme>>
    decreases |s|
  {
    if s == [] then Some([])
    else if Blank(s[0]) then Lexemes(h, s[1..])
    else
      match LexOne(h, s)
      case None => None
      case Some(l) => Before([l.value], Lexemes(h, l.rest))
  }

  function Before(ls: seq<Lexeme>, after: Option<seq<Lexeme>>): Option<seq<Lexeme>> {
    match after
    case None => None
    case Some(rest) => Some(ls + rest)
  }

  // ---------------------------------------------------------------------------------------------
  // Reader
  // ---------------------------------------------------------------------------------------------

  datatype Parsed<+T> = Parsed(value: T, rest: seq<Lexeme>)

  type Parse<+T> = Option<Parsed<T>>

  function Plain(k: Kind): Node {
    Node(k, [], None)
  }

  const QUESTION := Leaf(Symbol(None, "?"))

  predicate AtEnd(ls: seq<Lexeme>) {
    ls == [] || ls[0].Close?
  }

  /** `apply_postfix_question`. */
  function Postfix(n: Node, ls: seq<Lexeme>): (r: Parsed<Node>)
    ensures |r.rest| <= |ls|
    decreases |ls|
  {
    if ls != [] && ls[0] == QUESTION then
      Postfix(Plain(List([Plain(Atomic(Symbol(None, "?"))), n])), ls[1..])
    else Parsed(n, ls)
  }

  /** `dispatch`. */
  function Dispatch(ls: seq<Lexeme>): (r: Parse<Node>)
    requires !AtEnd(ls)
    ensures r.Some? ==> |r.value.rest| < |ls|
    decreases |ls|, 0
  {
    match ls[0]
    case Leaf(a) => Some(Parsed(Plain(Atomic(a)), ls[1..]))
    case Mark(p) =>
      if AtEnd(ls[1..]) then None
      else
        (match Dispatch(ls[1..])
         case None => None
         case Some(inner) => Some(Parsed(Plain(Prefixed(p, inner.value)), inner.rest)))
    case Open(b) =>
      match Items(ls[1..])
      case None => None
      case Some(items) =>
        if items.rest == [] || items.rest[0] != Close(if b == HashCurly then Curly else b) then None
        else
          match Collection(b, items.value)
          case None => None
          case Some(k) => Some(Parsed(Plain(k), items.rest[1..]))
  }

  function Collection(b: Bracket, items: seq<Node>): Option<Kind> {
    match b
    case Round => Some(List(items))
    case Square => Some(Vector(items))
    case HashCurly => Some(Set(items))
    case Curly => if |items| % 2 == 0 then Some(Map(PairUp(items))) else None
  }

  function PairUp(items: seq<Node>): seq<Entry>
    requires |items| % 2 == 0
  {
    if items == [] then [] else [Entry(items[0], items[1])] + PairUp(items[2..])
  }

  /** The forms up to a closing bracket or the end. */
  function Items(ls: seq<Lexeme>): (r: Parse<seq<Node>>)
    ensures r.Some? ==> |r.value.rest| <= |ls| && AtEnd(r.value.rest)
    decreases |ls|, 2
  {
    if AtEnd(ls) then Some(Parsed([], ls))
    else
      match Forms(ls)
      case None => None
      case Some(some) =>
        match Items(some.rest)
        case None => None
        case Some(more) => Some(Parsed(some.value + more.value, more.rest))
  }

  /** Leading `#_` marks. */
  function Discards(ls: seq<Lexeme>): (n: nat)
    ensures n <= |ls| && (n > 0 <==> ls != [] && ls[0] == Mark(Discard))
  {
    if ls == [] || ls[0] != Mark(Discard) then 0 else 1 + Discards(ls[1..])
  }

  /** `read_forms_into`: a form with its postfix marks, or a run of `#_` with as many forms after it. */
  function Forms(ls: seq<Lexeme>): (r: Parse<seq<Node>>)
    requires !AtEnd(ls)
    ensures r.Some? ==> |r.value.rest| < |ls|
    decreases |ls|, 1
  {
    var n := Discards(ls);
    if n > 0 then Discarded(n, ls[n..])
    else
      match Dispatch(ls)
      case None => None
      case Some(form) =>
        var r := Postfix(form.value, form.rest);
        Some(Parsed([r.value], r.rest))
  }

  function Discarded(n: nat, ls: seq<Lexeme>): (r: Parse<seq<Node>>)
    ensures r.Some? ==> |r.value.rest| <= |ls|
    decreases |ls|, 1
  {
    if n == 0 then Some(Parsed([], ls))
    else if AtEnd(ls) then None
    else
      match Dispatch(ls)
      case None => None
      case Some(form) =>
        var target := Postfix(form.value, form.rest);
        match Discarded(n - 1, target.rest)
        case None => None
        case Some(more) => Some(Parsed([Plain(Prefixed(Discard, target.value))] + more.value, more.rest))
  }

  /** `read`. */
  function Read(h: Host, text: string): Option<seq<Node>> {
    match Lexemes(h, text)
    case None => None
    case Some(ls) =>
      match Items(ls)
      case None => None
      case Some(items) => if items.rest == [] then Some(items.value) else None
  }
}
