/**
 The width measure of crates/nexl-ast/src/printer.rs: `flat_len*`, `needs_multiline_list`,
 `body_form_leading_count`. Widths are `usize` byte counts; `MAX` (`usize::MAX`) means "not on one line".
*/
module WidthMeasure {
  import opened Basics
  import opened Ast
  import opened FlatPrinter

  const MAX: nat := 0xFFFF_FFFF_FFFF_FFFF

  /** `usize::saturating_add`. */
  function SatAdd(a: nat, b: nat): nat {
    if a + b > MAX then MAX else a + b
  }

  function Utf8Width(c: char): nat {
    if c as nat < 0x80 then 1 else if c as nat < 0x800 then 2 else if c as nat < 0x1_0000 then 3 else 4
  }

  /** `str::len`. */
  function Bytes(s: string): nat {
    if s == [] then 0 else Bytes(s[..|s| - 1]) + Utf8Width(s[|s| - 1])
  }

  predicate IsEscaped(c: char) {
    c == '\\' || c == '"' || c == '\t' || c == '\r'
  }

  predicate IsNamedChar(c: char) {
    c == ' ' || c == '\n' || c == '\t' || c == '\r'
  }

  function EscapedWidth(s: string): nat {
    if s == [] then 0
    else
      EscapedWidth(s[..|s| - 1]) + if IsEscaped(s[|s| - 1]) then 2 else 1
  }

  function CharWidth(c: char): nat {
    match c
    case ' ' => 6
    case '\n' => 8
    case '\t' => 4
    case '\r' => 7
    case _ => if IsAsciiGraphic(c) then 2 else 8
  }

  function NameWidth(ns: Option<string>, name: string): nat {
    Bytes(name) + if ns.Some? then Bytes(ns.value) + 1 else 0
  }

  function FlatLenAtom(a: Atom): nat {
    match a
    case Int(v, suffix) => Bytes(Decimal(v)) + Bytes(IntSuffixText(suffix))
    case Float(digits, suffix) => Bytes(digits) + Bytes(FloatSuffixText(suffix))
    case Ratio(n, d) => Bytes(Decimal(n)) + 1 + Bytes(Decimal(d))
    case Bool(b) => if b then 4 else 5
    case Unit => 4
    case Char(c) => CharWidth(c)
    case Str(s) => if '\n' in s then MAX else 2 + EscapedWidth(s)
    case Keyword(ns, name) => 1 + NameWidth(ns, name)
    case Symbol(ns, name) => NameWidth(ns, name)
  }

  predicate IsBodyIndentForm(name: string) {
    name in {"defn", "fn", "def", "do", "when", "unless", "deftype", "defeffect", "defprotocol", "defmacro",
             "handle", "import", "try", "each", "times", "for", "describe", "deftest"}
  }

  predicate VectorAt(items: seq<Node>, i: nat) {
    i < |items| && items[i].kind.Vector?
  }

  /** How many leading items a body form keeps on its first line. */
  function BodyFormLeadingCount(head: string, items: seq<Node>): (count: nat)
    requires items != []
    ensures 1 <= count <= |items|
  {
    match head
    case "defn" =>
      if |items| < 2 then |items|
      else if |items| > 2 && items[2].kind.Atomic? && items[2].kind.atom.Str? then 2
      else if VectorAt(items, 2) then 3
      else 2
    case "fn" => if VectorAt(items, 1) then 2 else 1
    case "def" => Min(2, |items|)
    case "deftype" => Min(2, |items|)
    case "defeffect" => Min(2, |items|)
    case "defprotocol" => Min(2, |items|)
    case "defmacro" => Min(if VectorAt(items, 2) then 3 else 2, |items|)
    case "each" => Min(3, |items|)
    case "times" => Min(3, |items|)
    case "describe" => Min(2, |items|)
    case "deftest" => Min(if 2 < |items| && items[2].kind.Map? then 3 else 2, |items|)
    case _ => 1
  }

  predicate AnyCompound(items: seq<Node>) {
    exists x <- items :: IsCompound(x.kind)
  }

  /** Slicing `items[2..]` panics on a shorter `deftype` list. */
  predicate Sliceable(items: seq<Node>) {
    items != [] && HeadName(items) == Some("deftype") ==> |items| >= 2
  }

  /** Whether a list is forced onto several lines regardless of its width. */
  predicate NeedsMultiline(items: seq<Node>)
    requires Sliceable(items)
  {
    items != [] &&
    match HeadName(items)
    case None => false
    case Some(head) =>
      if head == "let" || head == "loop" then VectorAt(items, 1) && |items[1].kind.items| >= 4
      else if head == "deftype" then exists x <- items[2..] :: IsPipe(x) || IsCompound(x.kind)
      else if IsBodyIndentForm(head) then AnyCompound(items[BodyFormLeadingCount(head, items)..])
      else if head == "module" then |items| > 2
      else if head == "if" || head == "cond" || head == "match" then |items| > 2 && AnyCompound(items[2..])
      else false
  }

  /** The measure is defined on the whole tree: no `deftype` list is too short to slice. */
  predicate Measurable(n: Node)
    decreases n
  {
    MeasurableKind(n.kind)
  }

  predicate MeasurableKind(k: Kind)
    decreases k
  {
    match k
    case Atomic(_) => true
    case List(items) => Sliceable(items) && forall i | 0 <= i < |items| :: Measurable(items[i])
    case Vector(items) => forall i | 0 <= i < |items| :: Measurable(items[i])
    case Set(items) => forall i | 0 <= i < |items| :: Measurable(items[i])
    case Map(pairs) => forall i | 0 <= i < |pairs| :: MeasurableEntry(pairs[i])
    case Prefixed(_, inner) => Measurable(inner)
  }

  predicate MeasurableEntry(e: Entry)
    decreases e
  {
    Measurable(e.key) && Measurable(e.val)
  }

  function FlatLen(n: Node): nat
    requires Measurable(n)
    decreases n
  {
    if n.leading != [] then MAX
    else
      var base := FlatLenKind(n.kind);
      if base == MAX then MAX
      else
        match n.trailing
        case Some(c) => SatAdd(SatAdd(base, 2), Bytes(c))
        case None => base
  }

  function FlatLenKind(k: Kind): nat
    requires MeasurableKind(k)
    decreases k
  {
    match k
    case Atomic(a) => FlatLenAtom(a)
    case List(items) =>
      if IsPostfixQuestion(items) then SatAdd(FlatLen(items[1]), 1)
      else if NeedsMultiline(items) then MAX
      else FlatLenSeq(items)
    case Vector(items) => FlatLenSeq(items)
    case Set(items) => SatAdd(FlatLenSeq(items), 1)
    case Map(pairs) =>
      if pairs == [] then 2
      else if |pairs| >= 2 then MAX
      else FlatLenEntry(pairs[0])
    case Prefixed(p, inner) => SatAdd(FlatLen(inner), |PrefixText(p)|)
  }

  function FlatLenEntry(e: Entry): nat
    requires MeasurableEntry(e)
    decreases e
  {
    SatAdd(SatAdd(SatAdd(2, FlatLen(e.key)), 1), FlatLen(e.val))
  }

  /** `flat_len_seq`: both delimiters, one space between items, `MAX` as soon as an item is. */
  function FlatLenSeq(items: seq<Node>): nat
    requires forall i | 0 <= i < |items| :: Measurable(items[i])
    decreases items
  {
    if items == [] then 2
    else
      var before := FlatLenSeq(items[..|items| - 1]);
      var item := FlatLen(items[|items| - 1]);
      if before == MAX || item == MAX then MAX
      else SatAdd(if |items| > 1 then SatAdd(before, 1) else before, item)
  }

  // ---------------------------------------------------------------------------------------------
  // The measure is exact
  // ---------------------------------------------------------------------------------------------

  predicate IsAscii(s: string) {
    forall i | 0 <= i < |s| :: s[i] as nat < 0x80
  }

  /** Atoms whose table entry in `flat_len_atom` is their real width. */
  predicate MeasuredExactly(a: Atom) {
    match a
    case Char(c) => IsNamedChar(c) || IsAsciiGraphic(c) || 0x1000 <= c as nat < 0x1_0000
    case Str(s) => IsAscii(s)
    case _ => true
  }

  lemma {:induction false} BytesConcat(a: string, b: string)
    ensures Bytes(a + b) == Bytes(a) + Bytes(b)
  {
    if b == [] {
      assert a + b == a;
    } else {
      assert (a + b)[..|a + b| - 1] == a + b[..|b| - 1];
      BytesConcat(a, b[..|b| - 1]);
    }
  }

  lemma {:induction false} BytesAscii(s: string)
    requires IsAscii(s)
    ensures Bytes(s) == |s|
  {
    if s != [] { BytesAscii(s[..|s| - 1]); }
  }

  lemma {:induction false} EscapeWidth(s: string)
    requires '\n' !in s
    ensures Bytes(Escape(s)) >= EscapedWidth(s)
    ensures Bytes(Escape(s)) == EscapedWidth(s) <==> IsAscii(s)
  {
    hide EscapeChar, Bytes;
    if s == [] {
      assert Bytes("") == 0 by { NoBytes(); }
    } else {
      var init, c := s[..|s| - 1], s[|s| - 1];
      EscapeWidth(init);
      BytesConcat(Escape(init), EscapeChar(c));
      assert IsAscii(s) <==> IsAscii(init) && c as nat < 0x80 by {
        assert s == init + [c];
        assert forall i | 0 <= i < |init| :: s[i] == init[i];
      }
      EscapeCharWidth(c);
    }
  }

  lemma NoBytes()
    ensures Bytes("") == 0
  {
  }

  lemma EscapeCharWidth(c: char)
    ensures var w := if IsEscaped(c) || c == '\n' then 2 else 1;
            Bytes(EscapeChar(c)) >= w && (Bytes(EscapeChar(c)) == w <==> c as nat < 0x80)
  {
    var t := EscapeChar(c);
    assert |t| == 1 ==> t[..0] == [] && Bytes(t) == Bytes(t[..0]) + Utf8Width(t[0]);
    assert |t| == 2 ==> IsAscii(t);
    if |t| == 2 { BytesAscii(t); }
  }

  /** One hexadecimal digit per power of sixteen. */
  lemma HexDigits(n: nat)
    ensures |Numeral(n, 16)| == 4 <==> 0x1000 <= n < 0x1_0000
  {
    if n >= 16 {
      var a := n / 16;
      assert Numeral(n, 16) == Numeral(a, 16) + [Digit(n % 16)];
      if a >= 16 {
        var b := a / 16;
        assert Numeral(a, 16) == Numeral(b, 16) + [Digit(a % 16)];
        if b >= 16 {
          var c := b / 16;
          assert Numeral(b, 16) == Numeral(c, 16) + [Digit(b % 16)];
          if c >= 16 {
            assert Numeral(c, 16) == Numeral(c / 16, 16) + [Digit(c % 16)];
          }
        }
      }
    }
  }

  /** The table in `flat_len_atom` is right for exactly the atoms listed in `MeasuredExactly`. */
  lemma AtomWidthExact(a: Atom)
    requires !(a.Str? && '\n' in a.s)
    ensures FlatLenAtom(a) == Bytes(AtomText(a)) <==> MeasuredExactly(a)
  {
    hide Bytes, Numeral, Escape, EscapedWidth, CharText;
    match a
    case Int(v, suffix) => BytesConcat(Decimal(v), IntSuffixText(suffix));
    case Float(digits, suffix) => BytesConcat(digits, FloatSuffixText(suffix));
    case Ratio(n, d) =>
      BytesConcat(Decimal(n) + "/", Decimal(d));
      BytesConcat(Decimal(n), "/");
      BytesAscii("/");
    case Bool(b) => BytesAscii(AtomText(a));
    case Unit => BytesAscii(AtomText(a));
    case Char(c) => CharWidthExact(c);
    case Str(s) =>
      EscapeWidth(s);
      QuotesWidth(Escape(s));
    case Keyword(ns, name) =>
      BytesConcat(":", Qualified(ns, name));
      BytesAscii(":");
      QualifiedWidth(ns, name);
    case Symbol(ns, name) => QualifiedWidth(ns, name);
  }

  lemma CharWidthExact(c: char)
    ensures CharWidth(c) == Bytes(CharText(c)) <==> IsNamedChar(c) || IsAsciiGraphic(c) || 0x1000 <= c as nat < 0x1_0000
  {
    if !(IsNamedChar(c) || IsAsciiGraphic(c)) {
      HexDigits(c as nat);
    }
    BytesAscii(CharText(c));
  }

  lemma QuotesWidth(t: string)
    ensures Bytes("\"" + t + "\"") == Bytes(t) + 2
  {
    BytesConcat("\"" + t, "\"");
    BytesConcat("\"", t);
    BytesAscii("\"");
  }

  lemma QualifiedWidth(ns: Option<string>, name: string)
    ensures Bytes(Qualified(ns, name)) == NameWidth(ns, name)
  {
    if ns.Some? {
      BytesConcat(ns.value + "/", name);
      BytesConcat(ns.value, "/");
      BytesAscii("/");
    }
  }

  /** Something in the tree forbids one line: a leading comment, a newline string, a wide map or a forced form. */
  predicate Blocked(n: Node)
    requires Measurable(n)
    decreases n
  {
    n.leading != [] || BlockedKind(n.kind)
  }

  predicate BlockedKind(k: Kind)
    requires MeasurableKind(k)
    decreases k
  {
    match k
    case Atomic(a) => a.Str? && '\n' in a.s
    case List(items) =>
      if IsPostfixQuestion(items) then Blocked(items[1])
      else NeedsMultiline(items) || AnyBlocked(items)
    case Vector(items) => AnyBlocked(items)
    case Set(items) => AnyBlocked(items)
    case Map(pairs) => |pairs| >= 2 || exists i | 0 <= i < |pairs| :: BlockedEntry(pairs[i])
    case Prefixed(_, inner) => Blocked(inner)
  }

  predicate AnyBlocked(items: seq<Node>)
    requires forall i | 0 <= i < |items| :: Measurable(items[i])
    decreases items
  {
    exists i | 0 <= i < |items| :: Blocked(items[i])
  }

  predicate BlockedEntry(e: Entry)
    requires MeasurableEntry(e)
    decreases e
  {
    Blocked(e.key) || Blocked(e.val)
  }

  /** Bytes the flat printer emits for `ts`. */
  function Width(ts: seq<Tok>): nat {
    Bytes(SpellAll(ts))
  }

  lemma WidthConcat(a: seq<Tok>, b: seq<Tok>)
    ensures Width(a + b) == Width(a) + Width(b)
  {
    SpellConcat(a, b);
    BytesConcat(SpellAll(a), SpellAll(b));
  }

  lemma WidthOne(t: Tok)
    ensures Width([t]) == Bytes(Spell(t))
  {
    assert SpellAll([t]) == SpellAll([t][..0]) + Spell(t);
    assert SpellAll([t]) == Spell(t);
  }

  lemma WidthAscii(t: string)
    requires IsAscii(t)
    ensures Width([Word(t)]) == |t|
  {
    WidthOne(Word(t));
    BytesAscii(t);
  }

  lemma WidthGap()
    ensures Width([Gap]) == 1
  {
    WidthOne(Gap);
    BytesAscii(" ");
  }

  /** Measured exactly, and short enough for its length to be a `usize`. */
  predicate Sized(a: Atom) {
    MeasuredExactly(a) && Bytes(AtomText(a)) <= MAX
  }

  predicate Exact(n: Node) {
    AllAtoms(n, Sized)
  }

  function Expected(blocked: bool, ts: seq<Tok>): nat {
    if blocked then MAX else Min(Width(ts), MAX)
  }

  /**
   The width measure is exact: `MAX` for exactly the blocked trees (and those wider than a `usize`), otherwise
   the number of bytes the flat printer emits.
  */
  lemma {:induction false} FlatLenExact(n: Node)
    requires Measurable(n) && Exact(n)
    ensures FlatLen(n) == Expected(Blocked(n), FlatNode(n))
    decreases n
  {
    hide Bytes, SpellAll;
    FlatLenKindExact(n.kind);
    if n.leading == [] {
      assert LeadComments(n.leading) == [];
      assert LeadComments(n.leading) + FlatKind(n.kind) == FlatKind(n.kind);
      match n.trailing
      case None => assert FlatNode(n) == FlatKind(n.kind);
      case Some(c) =>
        assert FlatNode(n) == FlatKind(n.kind) + [TrailComment(c)];
        WidthConcat(FlatKind(n.kind), [TrailComment(c)]);
        WidthOne(TrailComment(c));
        BytesConcat(" ;", c);
        BytesAscii(" ;");
    }
  }

  lemma {:induction false} FlatLenKindExact(k: Kind)
    requires MeasurableKind(k) && AllAtomsKind(k, Sized)
    ensures FlatLenKind(k) == Expected(BlockedKind(k), FlatKind(k))
    decreases k
  {
    hide Bytes, SpellAll, Width, NeedsMultiline, FlatLenAtom, AtomText, HeadName, PrefixText;
    match k
    case Atomic(a) => AtomExpected(a);
    case List(items) => FlatLenListExact(items);
    case Vector(items) =>
      FlatLenSeqExact(items);
      Bracketed("[", FlatItems(items), "]");
    case Set(items) =>
      FlatLenSeqExact(items);
      Bracketed("{", FlatItems(items), "}");
      var inner := Delimited("{", FlatItems(items), "}");
      assert FlatKind(k) == [Word("#")] + inner;
      Preceded(AnyBlocked(items), "#", inner);
    case Map(pairs) =>
      Bracketed("{", FlatPairs(pairs), "}");
      if |pairs| == 1 { FlatLenEntryExact(pairs[0]); } else { WidthNone(); }
    case Prefixed(p, inner) =>
      FlatLenExact(inner);
      PrefixAscii(p);
      Preceded(Blocked(inner), PrefixText(p), FlatNode(inner));
  }

  lemma {:induction false} FlatLenListExact(items: seq<Node>)
    requires MeasurableKind(List(items)) && AllAtomsKind(List(items), Sized)
    ensures FlatLenKind(List(items)) == Expected(BlockedKind(List(items)), FlatKind(List(items)))
    decreases items, 1
  {
    hide Bytes, SpellAll, Width, NeedsMultiline, HeadName, Spell;
    if IsPostfixQuestion(items) {
      FlatLenExact(items[1]);
      Extended(Blocked(items[1]), FlatNode(items[1]), "?");
    } else {
      FlatLenSeqExact(items);
      Bracketed("(", FlatItems(items), ")");
    }
  }

  lemma PrefixAscii(p: Prefix)
    ensures IsAscii(PrefixText(p))
  {
  }

  lemma AtomExpected(a: Atom)
    requires Sized(a)
    ensures FlatLenAtom(a) == Expected(a.Str? && '\n' in a.s, [AtomTok(a)])
  {
    hide Bytes, SpellAll;
    WidthOne(AtomTok(a));
    if !(a.Str? && '\n' in a.s) { AtomWidthExact(a); }
  }

  lemma Extended(blocked: bool, ts: seq<Tok>, word: string)
    requires IsAscii(word)
    ensures SatAdd(Expected(blocked, ts), |word|) == Expected(blocked, ts + [Word(word)])
  {
    WidthConcat(ts, [Word(word)]);
    WidthAscii(word);
  }

  lemma Preceded(blocked: bool, word: string, ts: seq<Tok>)
    requires IsAscii(word)
    ensures SatAdd(Expected(blocked, ts), |word|) == Expected(blocked, [Word(word)] + ts)
  {
    WidthConcat([Word(word)], ts);
    WidthAscii(word);
  }

  lemma WidthNone()
    ensures Width([]) == 0
  {
  }

  lemma Bracketed(open: string, body: seq<Tok>, close: string)
    requires IsAscii(open) && IsAscii(close) && |open| == |close| == 1
    ensures Width(Delimited(open, body, close)) == Width(body) + 2
  {
    hide Bytes, SpellAll;
    WidthConcat([Word(open)] + body, [Word(close)]);
    WidthConcat([Word(open)], body);
    WidthAscii(open);
    WidthAscii(close);
  }

  lemma {:induction false} FlatLenEntryExact(e: Entry)
    requires MeasurableEntry(e) && AllAtomsEntry(e, Sized)
    ensures FlatLenEntry(e) == if BlockedEntry(e) then MAX else Min(Width(FlatEntry(e)) + 2, MAX)
    decreases e
  {
    hide Bytes, SpellAll;
    FlatLenExact(e.key);
    FlatLenExact(e.val);
    WidthConcat(FlatNode(e.key) + [Gap], FlatNode(e.val));
    WidthConcat(FlatNode(e.key), [Gap]);
    WidthGap();
  }

  /** Adding one more item, on token sequences: `pad` is 2 for the delimiters counted up front. */
  lemma SeqStep(blocked: bool, ts: seq<Tok>, blockedItem: bool, item: seq<Tok>)
    ensures SatAdd(SatAdd(Padded(blocked, ts), 1), Expected(blockedItem, item))
         == Padded(blocked || blockedItem, ts + [Gap] + item)
  {
    hide Bytes, SpellAll;
    WidthConcat(ts + [Gap], item);
    WidthConcat(ts, [Gap]);
    WidthGap();
  }

  function Padded(blocked: bool, ts: seq<Tok>): nat {
    if blocked then MAX else Min(Width(ts) + 2, MAX)
  }

  lemma {:induction false} FlatLenSeqExact(items: seq<Node>)
    requires forall i | 0 <= i < |items| :: Measurable(items[i]) && Exact(items[i])
    ensures FlatLenSeq(items) == Padded(AnyBlocked(items), FlatItems(items))
    decreases items, 0
  {
    hide Bytes, SpellAll, Spell, FlatNode, FlatLen, Blocked, Width, Measurable, AllAtoms;
    if items == [] {
      WidthNone();
    } else {
      var init, last := items[..|items| - 1], items[|items| - 1];
      FlatLenExact(last);
      if |items| > 1 {
        FlatLenSeqExact(init);
        assert AnyBlocked(items) == (AnyBlocked(init) || Blocked(last)) by {
          assert items == init + [last];
        }
        SeqStep(AnyBlocked(init), FlatItems(init), Blocked(last), FlatNode(last));
      } else {
        assert FlatLenSeq(init) == 2;
      }
    }
  }
}
