/** The flat (single-line) printer of crates/nexl-ast/src/printer.rs as a token stream. */
module FlatPrinter {
  import opened Basics
  import opened Ast

  // ---------------------------------------------------------------------------------------------
  // Spelling of atoms
  // ---------------------------------------------------------------------------------------------

  predicate IsDigit(c: char) {
    '0' <= c <= '9' || 'A' <= c <= 'F'
  }

  function Digit(d: nat): (c: char)
    requires d < 16
    ensures IsDigit(c)
  {
    if d < 10 then '0' + d as char else 'A' + (d - 10) as char
  }

  function Numeral(n: nat, radix: nat): (t: string)
    requires 2 <= radix <= 16
    ensures t != [] && forall i | 0 <= i < |t| :: IsDigit(t[i])
  {
    if n < radix then [Digit(n)] else Numeral(n / radix, radix) + [Digit(n % radix)]
  }

  function Decimal(n: int): string {
    if n < 0 then "-" + Numeral(-n, 10) else Numeral(n, 10)
  }

  function IntSuffixText(s: Option<IntSuffix>): string {
    match s
    case None => ""
    case Some(I8) => "i8"
    case Some(I16) => "i16"
    case Some(I32) => "i32"
    case Some(I64) => "i64"
    case Some(U8) => "u8"
    case Some(U16) => "u16"
    case Some(U32) => "u32"
    case Some(U64) => "u64"
  }

  function FloatSuffixText(s: Option<FloatSuffix>): string {
    match s
    case None => ""
    case Some(F32) => "f32"
    case Some(F64) => "f64"
  }

  predicate IsAsciiGraphic(c: char) {
    '!' <= c <= '~'
  }

  function CharText(c: char): string {
    if c == ' ' then "\\space"
    else if c == '\n' then "\\newline"
    else if c == '\t' then "\\tab"
    else if c == '\r' then "\\return"
    else if IsAsciiGraphic(c) then ['\\', c]
    else "\\u{" + Numeral(c as nat, 16) + "}"
  }

  function EscapeChar(c: char): string {
    match c
    case '\\' => "\\\\"
    case '"' => "\\\""
    case '\n' => "\\n"
    case '\t' => "\\t"
    case '\r' => "\\r"
    case _ => [c]
  }

  function Escape(s: string): string {
    if s == [] then "" else Escape(s[..|s| - 1]) + EscapeChar(s[|s| - 1])
  }

  function StrText(s: string): string {
    "\"" + Escape(s) + "\""
  }

  function Qualified(ns: Option<string>, name: string): string {
    match ns
    case None => name
    case Some(q) => q + "/" + name
  }

  function AtomText(a: Atom): string {
    match a
    case Int(v, suffix) => Decimal(v) + IntSuffixText(suffix)
    case Float(digits, suffix) => digits + FloatSuffixText(suffix)
    case Ratio(n, d) => Decimal(n) + "/" + Decimal(d)
    case Bool(b) => if b then "true" else "false"
    case Unit => "unit"
    case Char(c) => CharText(c)
    case Str(s) => StrText(s)
    case Keyword(ns, name) => ":" + Qualified(ns, name)
    case Symbol(ns, name) => Qualified(ns, name)
  }

  function PrefixText(p: Prefix): (t: string)
    ensures 0 < |t| <= 2
  {
    match p
    case Quote => "'"
    case Deref => "@"
    case Discard => "#_"
    case Quasiquote => "`"
    case Unquote => "~"
    case UnquoteSplice => "~@"
  }

  function Spaces(n: nat): (t: string)
    ensures |t| == n && forall c <- t :: c == ' '
  {
    seq(n, _ => ' ')
  }

  /** The lines of a triple-quoted literal: blank lines stay blank, others are padded. `cur` is the open line. */
  function PadLines(s: string, cur: string, pad: string): string
    decreases |s|
  {
    if s == [] then PadLine(cur, pad)
    else if s[0] == '\n' then PadLine(cur, pad) + PadLines(s[1..], "", pad)
    else PadLines(s[1..], cur + [s[0]], pad)
  }

  function PadLine(line: string, pad: string): string {
    if line == [] then "\n" else pad + line + "\n"
  }

  function MultilineText(s: string, indent: nat): string {
    "\"\"\"\n" + PadLines(s, "", Spaces(indent)) + Spaces(indent) + "\"\"\""
  }

  // ---------------------------------------------------------------------------------------------
  // Tokens of the flat printer
  // ---------------------------------------------------------------------------------------------

  /**
   A printed token. `Gap` is the white space between two siblings, `Block` a string literal with newlines,
   identified by its value because its spelling depends on the indentation.
  */
  datatype Tok =
    | Gap
    | Word(text: string)
    | Block(value: string)
    | LeadComment(comment: string)
    | TrailComment(comment: string)

  function Spell(t: Tok): string {
    match t
    case Gap => " "
    case Word(text) => text
    case Block(value) => MultilineText(value, 0)
    case LeadComment(comment) => ";" + comment + "\n"
    case TrailComment(comment) => " ;" + comment
  }

  function SpellAll(ts: seq<Tok>): string {
    if ts == [] then "" else SpellAll(ts[..|ts| - 1]) + Spell(ts[|ts| - 1])
  }

  /** White space after the token does not open a gap: it is one already, or it ends its line. */
  predicate Open(t: Tok) {
    t.Gap? || t.LeadComment?
  }

  /** Starts with something other than white space and does not end in it. */
  predicate Solid(ts: seq<Tok>) {
    ts != [] && ts[0] != Gap && !Open(ts[|ts| - 1])
  }

  function LeadComments(comments: seq<string>): (ts: seq<Tok>)
    ensures |ts| == |comments|
    ensures forall i | 0 <= i < |ts| :: ts[i] == LeadComment(comments[i])
  {
    seq(|comments|, i requires 0 <= i < |comments| => LeadComment(comments[i]))
  }

  /** What `write_node` emits. */
  function FlatNode(n: Node): (ts: seq<Tok>)
    ensures Solid(ts)
    decreases n
  {
    LeadComments(n.leading) + FlatKind(n.kind) + (if n.trailing.Some? then [TrailComment(n.trailing.value)] else [])
  }

  function Delimited(open: string, body: seq<Tok>, close: string): (ts: seq<Tok>)
    ensures Solid(ts)
  {
    [Word(open)] + body + [Word(close)]
  }

  /** What `write_kind` emits. */
  function FlatKind(k: Kind): (ts: seq<Tok>)
    ensures Solid(ts)
    decreases k
  {
    match k
    case Atomic(a) => [AtomTok(a)]
    case List(items) =>
      if IsPostfixQuestion(items) then FlatNode(items[1]) + [Word("?")]
      else Delimited("(", FlatItems(items), ")")
    case Vector(items) => Delimited("[", FlatItems(items), "]")
    case Set(items) => [Word("#")] + Delimited("{", FlatItems(items), "}")
    case Map(pairs) => Delimited("{", FlatPairs(pairs), "}")
    case Prefixed(p, inner) => [Word(PrefixText(p))] + FlatNode(inner)
  }

  function AtomTok(a: Atom): (t: Tok)
    ensures !Open(t)
  {
    if a.Str? && '\n' in a.s then Block(a.s) else Word(AtomText(a))
  }

  function FlatItems(items: seq<Node>): (ts: seq<Tok>)
    ensures items != [] ==> Solid(ts)
    decreases items
  {
    if items == [] then []
    else if |items| == 1 then FlatNode(items[0])
    else FlatItems(items[..|items| - 1]) + [Gap] + FlatNode(items[|items| - 1])
  }

  function FlatEntry(e: Entry): (ts: seq<Tok>)
    ensures Solid(ts)
    decreases e
  {
    FlatNode(e.key) + [Gap] + FlatNode(e.val)
  }

  function FlatPairs(pairs: seq<Entry>): (ts: seq<Tok>)
    ensures pairs != [] ==> Solid(ts)
    decreases pairs
  {
    if pairs == [] then []
    else if |pairs| == 1 then FlatEntry(pairs[0])
    else FlatPairs(pairs[..|pairs| - 1]) + [Gap] + FlatEntry(pairs[|pairs| - 1])
  }

  function FlatText(n: Node): string {
    SpellAll(FlatNode(n))
  }

  lemma {:induction false} SpellConcat(a: seq<Tok>, b: seq<Tok>)
    ensures SpellAll(a + b) == SpellAll(a) + SpellAll(b)
  {
    hide Spell;
    if b == [] {
      assert a + b == a;
    } else {
      assert (a + b)[..|a + b| - 1] == a + b[..|b| - 1];
      SpellConcat(a, b[..|b| - 1]);
    }
  }

  // ---------------------------------------------------------------------------------------------
  // Trees the lexer can produce
  // ---------------------------------------------------------------------------------------------

  /** `char::is_whitespace`. */
  predicate IsWhite(c: char) {
    || c == ' ' || '\t' <= c <= '\r' || c == '\U{85}' || c == '\U{A0}' || c == '\U{1680}'
    || '\U{2000}' <= c <= '\U{200A}' || c == '\U{2028}' || c == '\U{2029}' || c == '\U{202F}'
    || c == '\U{205F}' || c == '\U{3000}'
  }

  predicate IsDelimiter(c: char) {
    c == '(' || c == ')' || c == '[' || c == ']' || c == '{' || c == '}'
  }

  /** A character of a name or number: no white space, delimiter, quote, comment or escape character. */
  predicate PlainChar(c: char) {
    !IsWhite(c) && !IsDelimiter(c) && c != '"' && c != ';' && c != '\\'
  }

  predicate PlainText(s: string) {
    forall i | 0 <= i < |s| :: PlainChar(s[i])
  }

  predicate PlainAtom(a: Atom) {
    match a
    case Float(digits, _) => PlainText(digits) && digits != []
    case Keyword(ns, name) => PlainText(name) && (ns.Some? ==> PlainText(ns.value))
    case Symbol(ns, name) => PlainText(name) && name != [] && (ns.Some? ==> PlainText(ns.value))
    case _ => true
  }

  lemma PlainConcat(a: string, b: string)
    requires PlainText(a) && PlainText(b)
    ensures PlainText(a + b)
  {
  }

  lemma DecimalPlain(n: int)
    ensures PlainText(Decimal(n)) && Decimal(n) != []
  {
    var digits := Numeral(if n < 0 then -n else n, 10);
    assert PlainText(digits);
    PlainConcat("-", digits);
  }

  lemma QualifiedPlain(ns: Option<string>, name: string)
    requires PlainText(name) && (ns.Some? ==> PlainText(ns.value))
    ensures PlainText(Qualified(ns, name))
  {
  }

  /** Everything but character and string literals is spelled with plain characters only. */
  lemma AtomTextPlain(a: Atom)
    requires PlainAtom(a) && !a.Str? && !a.Char?
    ensures PlainText(AtomText(a)) && AtomText(a) != []
  {
    hide Numeral;
    match a
    case Int(v, suffix) => DecimalPlain(v); PlainConcat(Decimal(v), IntSuffixText(suffix));
    case Ratio(n, d) => DecimalPlain(n); DecimalPlain(d); PlainConcat(Decimal(n) + "/", Decimal(d));
    case Keyword(ns, name) => QualifiedPlain(ns, name);
    case Symbol(ns, name) => QualifiedPlain(ns, name);
    case _ =>
  }

  predicate AllAtoms(n: Node, p: Atom -> bool)
    decreases n
  {
    AllAtomsKind(n.kind, p)
  }

  predicate AllAtomsKind(k: Kind, p: Atom -> bool)
    decreases k
  {
    match k
    case Atomic(a) => p(a)
    case List(items) => forall i | 0 <= i < |items| :: AllAtoms(items[i], p)
    case Vector(items) => forall i | 0 <= i < |items| :: AllAtoms(items[i], p)
    case Set(items) => forall i | 0 <= i < |items| :: AllAtoms(items[i], p)
    case Map(pairs) => forall i | 0 <= i < |pairs| :: AllAtomsEntry(pairs[i], p)
    case Prefixed(_, inner) => AllAtoms(inner, p)
  }

  predicate AllAtomsEntry(e: Entry, p: Atom -> bool)
    decreases e
  {
    AllAtoms(e.key, p) && AllAtoms(e.val, p)
  }

  predicate Plain(n: Node) {
    AllAtoms(n, PlainAtom)
  }
}
