/**
 What the printers of `LayoutPrinter` guarantee about characters: the indented text is the flat text up to the
 amount of white space between tokens, and a flat line never passes the line width.
*/
module LayoutTheorems {
  import opened Basics
  import opened Ast
  import opened FlatPrinter
  import opened WidthMeasure
  import opened OutputBuffer
  import opened LayoutPrinter

  // ---------------------------------------------------------------------------------------------
  // Where tokens come from
  // ---------------------------------------------------------------------------------------------

  predicate IsPunctuation(s: string) {
    s in {"(", ")", "[", "]", "{", "}", "#", "?", "'", "@", "#_", "`", "~", "~@"}
  }

  ghost predicate FromAtom(t: Tok, p: Atom -> bool) {
    exists a :: p(a) && t == AtomTok(a)
  }

  /** A gap, punctuation, or the spelling of an atom satisfying `p`. */
  ghost predicate Origin(t: Tok, p: Atom -> bool) {
    t == Gap || (t.Word? && IsPunctuation(t.text)) || FromAtom(t, p)
  }

  ghost predicate Origins(ts: seq<Tok>, p: Atom -> bool) {
    forall i | 0 <= i < |ts| :: Origin(ts[i], p)
  }

  lemma {:induction false} NodeOrigins(n: Node, p: Atom -> bool)
    requires CommentFree(n) && AllAtoms(n, p)
    ensures Origins(FlatNode(n), p)
    decreases n
  {
    hide Origin;
    assert FlatNode(n) == FlatKind(n.kind);
    KindOrigins(n.kind, p);
  }

  lemma {:induction false} KindOrigins(k: Kind, p: Atom -> bool)
    requires CommentFreeKind(k) && AllAtomsKind(k, p)
    ensures Origins(FlatKind(k), p)
    decreases k
  {
    hide FlatNode, FlatItems, FlatPairs, AtomTok, IsPunctuation, FromAtom, PrefixText;
    Punctuation();
    match k
    case Atomic(a) => AtomOrigin(a, p);
    case List(items) =>
      if IsPostfixQuestion(items) { NodeOrigins(items[1], p); } else { ItemsOrigins(items, p); }
    case Vector(items) => ItemsOrigins(items, p);
    case Set(items) => ItemsOrigins(items, p);
    case Map(pairs) => PairsOrigins(pairs, p);
    case Prefixed(_, inner) => NodeOrigins(inner, p);
  }

  lemma AtomOrigin(a: Atom, p: Atom -> bool)
    requires p(a)
    ensures FromAtom(AtomTok(a), p)
  {
  }

  lemma Punctuation()
    ensures forall s | s == "(" || s == ")" || s == "[" || s == "]" || s == "{" || s == "}" || s == "#" || s == "?" ::
              IsPunctuation(s)
    ensures forall x :: IsPunctuation(PrefixText(x))
  {
  }

  lemma {:induction false} ItemsOrigins(items: seq<Node>, p: Atom -> bool)
    requires forall i | 0 <= i < |items| :: CommentFree(items[i]) && AllAtoms(items[i], p)
    ensures Origins(FlatItems(items), p)
    decreases items
  {
    hide FlatNode, FromAtom, IsPunctuation;
    if items != [] {
      NodeOrigins(items[|items| - 1], p);
      ItemsOrigins(items[..|items| - 1], p);
    }
  }

  lemma {:induction false} PairsOrigins(pairs: seq<Entry>, p: Atom -> bool)
    requires forall i | 0 <= i < |pairs| ::
               CommentFree(pairs[i].key) && CommentFree(pairs[i].val) && AllAtomsEntry(pairs[i], p)
    ensures Origins(FlatPairs(pairs), p)
    decreases pairs
  {
    hide FlatEntry, FromAtom, IsPunctuation;
    if pairs != [] {
      EntryOrigins(pairs[|pairs| - 1], p);
      PairsOrigins(pairs[..|pairs| - 1], p);
    }
  }

  lemma {:induction false} EntryOrigins(e: Entry, p: Atom -> bool)
    requires CommentFree(e.key) && CommentFree(e.val) && AllAtomsEntry(e, p)
    ensures Origins(FlatEntry(e), p)
    decreases e
  {
    hide FlatNode, FromAtom, IsPunctuation;
    NodeOrigins(e.key, p);
    NodeOrigins(e.val, p);
  }

  // ---------------------------------------------------------------------------------------------
  // Erasing the amount of white space
  // ---------------------------------------------------------------------------------------------

  /** Outside tokens, in a run of white space, in a string, after its backslash, after a backslash outside strings. */
  datatype Mode = Outside | White | InString | Escaped | CharLit

  function ModeStep(m: Mode, c: char): Mode {
    match m
    case InString => if c == '\\' then Escaped else if c == '"' then Outside else InString
    case Escaped => InString
    case CharLit => Outside
    case _ =>
      if c == ' ' || c == '\n' then White
      else if c == '"' then InString
      else if c == '\\' then CharLit
      else Outside
  }

  /** White space outside literals is emitted once per run, as a space. */
  function Emit(m: Mode, c: char): string {
    if (m.Outside? || m.White?) && (c == ' ' || c == '\n') then if m.White? then "" else " " else [c]
  }

  function ModeAfter(m: Mode, s: string): Mode {
    if s == [] then m else ModeStep(ModeAfter(m, s[..|s| - 1]), s[|s| - 1])
  }

  /** The text with every run of white space outside string and character literals replaced by one space. */
  function Squeeze(m: Mode, s: string): string {
    if s == [] then "" else Squeeze(m, s[..|s| - 1]) + Emit(ModeAfter(m, s[..|s| - 1]), s[|s| - 1])
  }

  lemma {:induction false} SqueezeConcat(m: Mode, a: string, b: string)
    ensures ModeAfter(m, a + b) == ModeAfter(ModeAfter(m, a), b)
    ensures Squeeze(m, a + b) == Squeeze(m, a) + Squeeze(ModeAfter(m, a), b)
  {
    hide ModeStep, Emit;
    if b == [] {
      assert a + b == a;
    } else {
      assert (a + b)[..|a + b| - 1] == a + b[..|b| - 1];
      SqueezeConcat(m, a, b[..|b| - 1]);
    }
  }

  predicate Between(m: Mode) {
    m.Outside? || m.White?
  }

  /** Blanks of any length act on the scanner like one space. */
  lemma {:induction false} SqueezeBlank(m: Mode, s: string)
    requires Between(m) && IsBlank(s)
    ensures ModeAfter(m, s) == ModeAfter(m, " ") == White
    ensures Squeeze(m, s) == Squeeze(m, " ")
  {
    if |s| == 1 {
      assert s[..0] == [] && " "[..0] == [];
    } else {
      SqueezeBlank(m, s[..|s| - 1]);
    }
  }

  /** A token after which the scanner is outside literals again. */
  ghost predicate Tidy(t: Tok) {
    t == Gap || (t.Word? && forall m | Between(m) :: Between(ModeAfter(m, t.text)))
  }

  /** Two renderings of the same tidy tokens squeeze to the same text. */
  lemma {:induction false} RenderingsAgree(toks: seq<Tok>, parts: seq<string>, text: string)
    requires Renders(toks, parts, text) && forall i | 0 <= i < |toks| :: Tidy(toks[i])
    ensures Squeeze(Outside, text) == Squeeze(Outside, SpellAll(toks))
    ensures ModeAfter(Outside, text) == ModeAfter(Outside, SpellAll(toks))
    ensures Between(ModeAfter(Outside, text))
  {
    hide Squeeze, ModeAfter;
    if toks == [] {
      assert text == SpellAll(toks) == "";
      assert Between(ModeAfter(Outside, "")) by { NoText(); }
    } else {
      var last := |toks| - 1;
      var t, before := toks[last], Join(parts[..last]);
      RenderingsAgree(toks[..last], parts[..last], before);
      SqueezeConcat(Outside, before, parts[last]);
      SqueezeConcat(Outside, SpellAll(toks[..last]), Spell(t));
      if t == Gap { SqueezeBlank(ModeAfter(Outside, before), parts[last]); }
    }
  }

  lemma NoText()
    ensures ModeAfter(Outside, "") == Outside
  {
  }

  // ---------------------------------------------------------------------------------------------
  // Tokens are tidy
  // ---------------------------------------------------------------------------------------------

  predicate OneLineAtom(a: Atom) {
    PlainAtom(a) && !(a.Str? && '\n' in a.s)
  }

  lemma {:induction false} PlainTidy(m: Mode, s: string)
    requires Between(m) && PlainText(s)
    ensures Between(ModeAfter(m, s))
  {
    if s != [] { PlainTidy(m, s[..|s| - 1]); }
  }

  lemma {:induction false} EscapeTidy(s: string)
    ensures ModeAfter(InString, Escape(s)) == InString
  {
    if s != [] {
      EscapeTidy(s[..|s| - 1]);
      SqueezeConcat(InString, Escape(s[..|s| - 1]), EscapeChar(s[|s| - 1]));
      EscapeCharTidy(s[|s| - 1]);
    }
  }

  lemma EscapeCharTidy(c: char)
    ensures ModeAfter(InString, EscapeChar(c)) == InString
  {
    var t := EscapeChar(c);
    if |t| == 1 {
      assert ModeAfter(InString, t) == ModeStep(ModeAfter(InString, t[..0]), c);
    } else {
      assert t[..1] == [t[0]] && t[..1][..0] == [];
      assert ModeAfter(InString, t[..1]) == Escaped;
    }
  }

  lemma StrTidy(m: Mode, s: string)
    requires Between(m)
    ensures Between(ModeAfter(m, StrText(s)))
  {
    hide ModeStep;
    SqueezeConcat(m, "\"" + Escape(s), "\"");
    SqueezeConcat(m, "\"", Escape(s));
    Quotes(m);
    EscapeTidy(s);
  }

  lemma Quotes(m: Mode)
    requires Between(m)
    ensures ModeAfter(m, "\"") == InString && ModeAfter(InString, "\"") == Outside && ModeAfter(m, "\\") == CharLit
  {
    assert "\""[..0] == [] && "\\"[..0] == [];
  }

  lemma CharTidy(m: Mode, c: char)
    requires Between(m)
    ensures Between(ModeAfter(m, CharText(c)))
  {
    hide Numeral, ModeStep;
    var t := CharText(c);
    assert t == "\\" + [t[1]] + t[2..];
    SqueezeConcat(m, "\\" + [t[1]], t[2..]);
    SqueezeConcat(m, "\\", [t[1]]);
    Quotes(m);
    AfterBackslash(t[1]);
    CharTail(c);
    BracesTidy(Outside, t[2..]);
  }

  lemma AfterBackslash(c: char)
    ensures ModeAfter(CharLit, [c]) == Outside
  {
    assert [c][..0] == [];
  }

  /** A text without white space, quotes and backslashes. */
  predicate Quoteless(s: string) {
    forall i | 0 <= i < |s| :: !IsWhite(s[i]) && s[i] != '"' && s[i] != '\\'
  }

  lemma CharTail(c: char)
    ensures |CharText(c)| >= 2 && Quoteless(CharText(c)[2..])
  {
    var digits := Numeral(c as nat, 16);
    assert Quoteless(digits);
  }

  lemma {:induction false} BracesTidy(m: Mode, s: string)
    requires Between(m) && Quoteless(s)
    ensures Between(ModeAfter(m, s))
  {
    if s != [] { BracesTidy(m, s[..|s| - 1]); }
  }

  lemma AtomTidy(a: Atom)
    requires OneLineAtom(a)
    ensures Tidy(AtomTok(a))
  {
    hide AtomText, ModeAfter;
    forall m | Between(m)
      ensures Between(ModeAfter(m, AtomText(a)))
    {
      AtomTextTidy(m, a);
    }
  }

  lemma AtomTextTidy(m: Mode, a: Atom)
    requires OneLineAtom(a) && Between(m)
    ensures Between(ModeAfter(m, AtomText(a)))
  {
    hide ModeAfter, PlainAtom;
    match a
    case Char(c) => CharTidy(m, c);
    case Str(s) => StrTidy(m, s);
    case _ =>
      AtomTextPlain(a);
      PlainTidy(m, AtomText(a));
  }

  lemma PunctuationTidy(s: string)
    requires IsPunctuation(s)
    ensures Tidy(Word(s))
  {
    forall m | Between(m)
      ensures Between(ModeAfter(m, s))
    {
      BracesTidy(m, s);
    }
  }

  lemma OriginsTidy(ts: seq<Tok>)
    requires Origins(ts, OneLineAtom)
    ensures forall i | 0 <= i < |ts| :: Tidy(ts[i])
  {
    hide Tidy, IsPunctuation, AtomTok;
    forall i | 0 <= i < |ts|
      ensures Tidy(ts[i])
    {
      assert Origin(ts[i], OneLineAtom);
      if FromAtom(ts[i], OneLineAtom) {
        var a :| OneLineAtom(a) && ts[i] == AtomTok(a);
        AtomTidy(a);
      } else if ts[i].Word? {
        PunctuationTidy(ts[i].text);
      } else {
        GapTidy();
      }
    }
  }

  lemma GapTidy()
    ensures Tidy(Gap)
  {
  }

  // ---------------------------------------------------------------------------------------------
  // Layout preserves the program
  // ---------------------------------------------------------------------------------------------

  /** Same characters outside white space, and white space in the same places. */
  predicate SameProgram(a: string, b: string) {
    Squeeze(Outside, a) == Squeeze(Outside, b)
  }

  ghost predicate IsRendering(toks: seq<Tok>, text: string) {
    exists parts :: Renders(toks, parts, text)
  }

  lemma RenderedSame(n: Node, parts: seq<string>, text: string)
    requires CommentFree(n) && AllAtoms(n, OneLineAtom) && Renders(FlatNode(n), parts, text)
    ensures SameProgram(text, FlatText(n))
  {
    hide Squeeze, FlatNode, Renders, Tidy;
    NodeOrigins(n, OneLineAtom);
    OriginsTidy(FlatNode(n));
    RenderingsAgree(FlatNode(n), parts, text);
  }

  /** `print`: the flat text. */
  method Print(n: Node) returns (text: string)
    ensures text == FlatText(n)
  {
    var out := new Buffer();
    WriteNode(n, out);
    text := out.text;
    assert "" + SpellAll(FlatNode(n)) == SpellAll(FlatNode(n));
  }

  /**
   The indented printer, from any indentation and column, writes the tokens of the flat one; without comments and
   newline strings it prints the same program.
  */
  method PrintIndented(cfg: PrintConfig, n: Node, indent: nat, column: nat) returns (text: string)
    requires Printable(cfg.alignColumns, n)
    ensures IsRendering(FlatNode(n), text)
    ensures CommentFree(n) && AllAtoms(n, OneLineAtom) ==> SameProgram(text, FlatText(n))
  {
    hide Renders, Squeeze, FlatNode;
    var out := new Buffer();
    WriteNodeIndented(cfg, n, out, indent, column);
    text := out.text;
    assert [] + FlatNode(n) == FlatNode(n);
    if CommentFree(n) && AllAtoms(n, OneLineAtom) {
      RenderedSame(n, out.parts, text);
    }
  }

  /** `print_file`: the top-level forms separated by blank lines, with a final newline. */
  method PrintFile(cfg: PrintConfig, nodes: seq<Node>) returns (text: string)
    requires AllPrintable(cfg.alignColumns, nodes)
    ensures IsRendering(FileTokens(nodes), text)
  {
    hide Renders, FlatNode, FlatItems;
    var out := new Buffer();
    EmptyItems();
    assert FileTokens(nodes[..0]) == [];
    for i := 0 to |nodes|
      invariant Holds(out, FileTokens(nodes[..i]))
    {
      hide FileTokens, Spaced, Printable;
      FileStep(nodes, i);
      if i > 0 {
        out.PushWhite('\n');
      }
      WriteNodeIndented(cfg, nodes[i], out, 0, 0);
      out.PushWhite('\n');
    }
    assert nodes[..|nodes|] == nodes;
    text := out.text;
  }

  /** The forms of a file: each is followed by a gap. */
  function FileTokens(nodes: seq<Node>): seq<Tok> {
    if nodes == [] then [] else FlatItems(nodes) + [Gap]
  }

  lemma FileStep(nodes: seq<Node>, k: nat)
    requires k < |nodes|
    ensures var before := if k > 0 then Spaced(FileTokens(nodes[..k])) else FileTokens(nodes[..k]);
            Spaced(before + FlatNode(nodes[k])) == FileTokens(nodes[..k + 1])
  {
    hide FlatNode, FlatItems;
    FlatItemsNext(nodes, k);
    var file := FileTokens(nodes[..k]);
    if k > 0 { assert Spaced(file) == file; }
    assert (if k > 0 then file else []) + FlatNode(nodes[k]) == FlatItems(nodes[..k + 1]);
  }

  /** A list loses or gains tokens in its layout engine exactly when it is not paired. */
  lemma LossyForms(align: bool, items: seq<Node>)
    requires items != [] && Indentable(items) && !IsPostfixQuestion(items)
    ensures Emitted(align, items) == FlatKind(List(items)) <==> Paired(align, items)
  {
    if Paired(align, items) {
      EmittedFlat(align, items);
    } else {
      KeptAll(align, items);
      if EndsInPipe(items) { ExtraGap(align, items); } else { KeptShorter(align, items); }
      hide FlatItems, EngineOf, FlatNode, Kept, Paired, EndsInPipe;
    }
  }

  lemma ExtraGap(align: bool, items: seq<Node>)
    requires items != [] && Indentable(items) && EndsInPipe(items) && !IsPostfixQuestion(items)
    ensures Emitted(align, items) != FlatKind(List(items))
  {
    hide FlatItems, EngineOf, FlatNode, Kept, EndsInPipe;
    var e, f := Emitted(align, items), FlatKind(List(items));
    assert e[|e| - 2] == Gap;
    assert f[|f| - 2] == FlatItems(items)[|FlatItems(items)| - 1];
  }

  lemma KeptShorter(align: bool, items: seq<Node>)
    requires items != [] && Indentable(items) && Kept(align, items) != items
    ensures |FlatItems(Kept(align, items))| < |FlatItems(items)|
  {
    hide FlatItems, EngineOf, FlatNode, Variants, Records, Regrouped, Thinned, VectorAt;
    match EngineOf(items)
    case Let => VectorShorter(align, items);
    case Deftype =>
      VariantsAll(items, 2);
      RecordsAll(items, 2);
      assert items[..2] + items[2..] == items;
      CountConcat(items[..2], DeftypeBody(items));
      CountConcat(items[..2], items[2..]);
      ThinnedTokens(DeftypeBody(items), items[2..]);
      FlatItemsCount(items);
      FlatItemsCount(Kept(align, items));
    case Cond => LastDropped(items);
    case Match => LastDropped(items);
    case _ =>
  }

  lemma LastDropped(items: seq<Node>)
    requires items != []
    ensures |FlatItems(items[..|items| - 1])| < |FlatItems(items)|
  {
    hide FlatNode;
    FlatItemsNext(items, |items| - 1);
    assert items[..|items| - 1 + 1] == items;
  }

  lemma VectorShorter(align: bool, items: seq<Node>)
    requires items != [] && Sliceable(items) && EngineOf(items).Let? && Kept(align, items) != items
    ensures |FlatItems(Kept(align, items))| < |FlatItems(items)|
  {
    hide FlatItems, EngineOf, FlatNode, Regrouped, Thinned, HasElse;
    var b, n := items[1].kind.items, Kept(align, items)[1];
    var r := if UsesLetElse(items) then Regrouped(b, 0) else b;
    assert n == Bare(items[1]).(kind := Vector(r)) && n != items[1];
    assert b[0..] == b;
    RegroupedThinned(b, 0);
    ThinnedItself(b);
    ThinnedTokens(r, b);
    FlatItemsCount(b);
    FlatItemsCount(r);
    VectorCount(items[1], r);
    BareCount(items[1]);
    BareCount(items[1].(kind := Vector(r)));
    ReplacedCount(items, 1, n);
  }

  lemma BareCount(n: Node)
    ensures |FlatNode(Bare(n))| <= |FlatNode(n)|
    ensures n != Bare(n) ==> |FlatNode(Bare(n))| < |FlatNode(n)|
  {
    hide FlatKind;
  }

  lemma ReplacedCount(items: seq<Node>, k: nat, n: Node)
    requires k < |items|
    ensures |FlatItems(items[k := n])| - |FlatNode(n)| == |FlatItems(items)| - |FlatNode(items[k])|
  {
    hide FlatItems, FlatNode, TokCount;
    var before, after := items[..k], items[k + 1..];
    CountInside(before, items[k], after);
    CountInside(before, n, after);
    assert items == before + [items[k]] + after && items[k := n] == before + [n] + after;
    FlatItemsCount(items);
    FlatItemsCount(items[k := n]);
  }

  lemma CountInside(before: seq<Node>, n: Node, after: seq<Node>)
    ensures TokCount(before + [n] + after) == TokCount(before) + |FlatNode(n)| + 1 + TokCount(after)
  {
    CountConcat(before + [n], after);
    CountConcat(before, [n]);
    CountOne(n);
  }

  /** Tokens of the items, counting one more for each. */
  function TokCount(items: seq<Node>): nat {
    if items == [] then 0 else TokCount(items[..|items| - 1]) + |FlatNode(items[|items| - 1])| + 1
  }

  lemma {:induction false} CountConcat(a: seq<Node>, b: seq<Node>)
    ensures TokCount(a + b) == TokCount(a) + TokCount(b)
  {
    hide FlatNode;
    if b == [] {
      assert a + b == a;
    } else {
      assert (a + b)[..|a + b| - 1] == a + b[..|b| - 1];
      CountConcat(a, b[..|b| - 1]);
    }
  }

  lemma CountOne(n: Node)
    ensures TokCount([n]) == |FlatNode(n)| + 1
  {
    hide FlatNode;
    assert [n][..0] == [];
  }

  lemma {:induction false} FlatItemsCount(items: seq<Node>)
    ensures TokCount(items) == if items == [] then 0 else |FlatItems(items)| + 1
    ensures items == [] ==> FlatItems(items) == []
  {
    hide FlatNode;
    if items != [] {
      FlatItemsCount(items[..|items| - 1]);
    }
  }

  lemma VectorCount(n: Node, items: seq<Node>)
    requires n.kind.Vector?
    ensures |FlatNode(n.(kind := Vector(items)))| - |FlatItems(items)| == |FlatNode(n)| - |FlatItems(n.kind.items)|
  {
    hide FlatItems;
    var changed := n.(kind := Vector(items));
    assert |FlatKind(changed.kind)| == |FlatItems(items)| + 2;
    assert |FlatKind(n.kind)| == |FlatItems(n.kind.items)| + 2;
  }

  /** Leaving nodes and comments out leaves tokens out. */
  lemma {:induction false} ThinnedTokens(some: seq<Node>, all: seq<Node>)
    requires Thinned(some, all)
    ensures TokCount(some) <= TokCount(all) && (some != all ==> TokCount(some) < TokCount(all))
    decreases |all|
  {
    hide TokCount, FlatNode;
    CountNone();
    if all != [] {
      assert all == [all[0]] + all[1..];
      CountConcat([all[0]], all[1..]);
      CountOne(all[0]);
      if some != [] && (some[0] == all[0] || some[0] == Bare(all[0])) && Thinned(some[1..], all[1..]) {
        assert some == [some[0]] + some[1..];
        CountConcat([some[0]], some[1..]);
        CountOne(some[0]);
        BareCount(all[0]);
        ThinnedTokens(some[1..], all[1..]);
      } else {
        ThinnedTokens(some, all[1..]);
      }
    }
  }

  lemma CountNone()
    ensures TokCount([]) == 0
  {
  }

  // ---------------------------------------------------------------------------------------------
  // Flat lines fit
  // ---------------------------------------------------------------------------------------------

  /** No trailing comment holds a line break. */
  predicate OneLineComments(n: Node)
    decreases n
  {
    (n.trailing.Some? ==> '\n' !in n.trailing.value) && OneLineCommentsKind(n.kind)
  }

  predicate OneLineCommentsKind(k: Kind)
    decreases k
  {
    match k
    case Atomic(_) => true
    case List(items) => forall x <- items :: OneLineComments(x)
    case Vector(items) => forall x <- items :: OneLineComments(x)
    case Set(items) => forall x <- items :: OneLineComments(x)
    case Map(pairs) => forall p <- pairs :: OneLineComments(p.key) && OneLineComments(p.val)
    case Prefixed(_, inner) => OneLineComments(inner)
  }

  predicate OneLine(ts: seq<Tok>) {
    forall i | 0 <= i < |ts| :: '\n' !in Spell(ts[i])
  }

  ghost predicate Unbroken(n: Node) {
    Measurable(n) && Plain(n) && OneLineComments(n) && !Blocked(n)
  }

  /** Without a blocking cause every token stays on its line. */
  lemma {:induction false} UnblockedOneLine(n: Node)
    requires Unbroken(n)
    ensures OneLine(FlatNode(n))
    decreases n
  {
    hide FlatKind;
    UnblockedKindOneLine(n.kind);
  }

  lemma {:induction false} UnblockedKindOneLine(k: Kind)
    requires OneLineCommentsKind(k) && MeasurableKind(k) && AllAtomsKind(k, PlainAtom) && !BlockedKind(k)
    ensures OneLine(FlatKind(k))
    decreases k
  {
    hide NeedsMultiline, Sliceable, PlainAtom, FlatItems, FlatPairs, FlatNode, PrefixText, AtomText;
    Brackets();
    match k
    case Atomic(a) => OneLineAtomText(a);
    case List(items) =>
      if IsPostfixQuestion(items) { UnblockedOneLine(items[1]); } else { ItemsOneLine(items); }
    case Vector(items) => ItemsOneLine(items);
    case Set(items) => ItemsOneLine(items);
    case Map(pairs) =>
      if |pairs| == 1 { EntryOneLine(pairs[0]); }
      ShortMap(pairs);
    case Prefixed(_, inner) => UnblockedOneLine(inner);
  }

  lemma Brackets()
    ensures OneLine([Word("("), Word(")"), Word("["), Word("]"), Word("{"), Word("}"), Word("#"), Word("?")])
    ensures forall x :: '\n' !in PrefixText(x)
  {
  }

  lemma ShortMap(pairs: seq<Entry>)
    requires |pairs| <= 1
    ensures FlatPairs(pairs) == if pairs == [] then [] else FlatEntry(pairs[0])
  {
    hide FlatEntry;
  }

  lemma {:induction false} ItemsOneLine(items: seq<Node>)
    requires forall i | 0 <= i < |items| :: Unbroken(items[i])
    ensures OneLine(FlatItems(items))
    decreases items, 0
  {
    hide FlatNode, Unbroken;
    if items != [] {
      UnblockedOneLine(items[|items| - 1]);
      ItemsOneLine(items[..|items| - 1]);
    }
  }

  lemma {:induction false} EntryOneLine(e: Entry)
    requires Unbroken(e.key) && Unbroken(e.val)
    ensures OneLine(FlatEntry(e))
    decreases e
  {
    hide FlatNode, Unbroken;
    UnblockedOneLine(e.key);
    UnblockedOneLine(e.val);
  }

  lemma OneLineAtomText(a: Atom)
    requires OneLineAtom(a)
    ensures '\n' !in AtomText(a)
  {
    hide Numeral, PlainAtom;
    match a
    case Char(c) =>
      CharTail(c);
      var t := CharText(c);
      assert t == t[..2] + t[2..];
    case Str(s) => EscapeOneLine(s);
    case _ => AtomTextPlain(a);
  }

  lemma {:induction false} EscapeOneLine(s: string)
    ensures '\n' !in Escape(s)
  {
    hide EscapeChar;
    if s != [] {
      EscapeOneLine(s[..|s| - 1]);
      EscapeCharOneLine(s[|s| - 1]);
    }
  }

  lemma EscapeCharOneLine(c: char)
    ensures '\n' !in EscapeChar(c)
  {
  }

  lemma {:induction false} OneLineText(ts: seq<Tok>)
    requires OneLine(ts)
    ensures '\n' !in SpellAll(ts)
  {
    hide Spell;
    if ts != [] { OneLineText(ts[..|ts| - 1]); }
  }

  /**
   When `write_node_indented` takes the flat branch, the line it writes after the leading comments, with the trailing
   comment, ends within the line width.
  */
  lemma FlatLineFits(cfg: PrintConfig, n: Node, column: nat)
    requires Measurable(n) && Plain(n) && Exact(n) && OneLineComments(n) && cfg.maxLineWidth < MAX
    requires var trailing := if n.trailing.Some? then 2 + Bytes(n.trailing.value) else 0;
             var total := SatAdd(FlatLenKind(n.kind), trailing);
             total != MAX && SatAdd(column, total) <= cfg.maxLineWidth
    ensures var line := FlatText(n.(leading := []));
            '\n' !in line && column + Bytes(line) <= cfg.maxLineWidth
  {
    hide FlatNode, FlatKind, Bytes, SpellAll, FlatLenKind, AllAtomsKind, BlockedKind, MeasurableKind,
      OneLineCommentsKind;
    var shown := n.(leading := []);
    FlatLenExact(shown);
    UnblockedOneLine(shown);
    OneLineText(FlatNode(shown));
  }
}
