/**
 The two printers of crates/nexl-ast/src/printer.rs: flat `write_node`/`write_kind`, and the indented printer
 with its eleven layout engines. Every engine emits the token sequence of the flat printer.
*/
module LayoutPrinter {
  import opened Basics
  import opened Ast
  import opened FlatPrinter
  import opened WidthMeasure
  import opened OutputBuffer

  datatype PrintConfig = PrintConfig(indentWidth: nat, maxLineWidth: nat, alignColumns: bool)

  // ---------------------------------------------------------------------------------------------
  // Flat printer
  // ---------------------------------------------------------------------------------------------

  lemma FlatItemsNext(items: seq<Node>, k: nat)
    requires k < |items|
    ensures FlatItems(items[..k + 1]) ==
            (if k == 0 then [] else FlatItems(items[..k]) + [Gap]) + FlatNode(items[k])
  {
    hide FlatNode;
    assert items[..k + 1][..k] == items[..k];
  }

  lemma FlatPairsNext(pairs: seq<Entry>, k: nat)
    requires k < |pairs|
    ensures FlatPairs(pairs[..k + 1]) ==
            (if k == 0 then [] else FlatPairs(pairs[..k]) + [Gap]) + FlatEntry(pairs[k])
  {
    hide FlatNode;
    assert pairs[..k + 1][..k] == pairs[..k];
  }

  method WriteStr(s: string) returns (t: string)
    ensures t == StrText(s)
  {
    t := "\"";
    for i := 0 to |s|
      invariant t == "\"" + Escape(s[..i])
    {
      assert s[..i + 1][..i] == s[..i];
      t := t + EscapeChar(s[i]);
    }
    assert s[..|s|] == s;
    t := t + "\"";
  }

  method WriteAtom(a: Atom, out: Buffer)
    requires out.Valid() && !(a.Str? && '\n' in a.s)
    modifies out
    ensures out.Valid() && out.toks == old(out.toks) + [AtomTok(a)]
    ensures out.text == old(out.text) + Spell(AtomTok(a))
  {
    match a
    case Str(s) => var t := WriteStr(s); out.PushWord(t);
    case _ => out.PushWord(AtomText(a));
  }

  /** Appending the tokens `more` and their spelling to what `Wrote` describes. */
  lemma More(base: seq<Tok>, start: string, ts: seq<Tok>, more: seq<Tok>)
    ensures (base + ts) + more == base + (ts + more)
    ensures (start + SpellAll(ts)) + SpellAll(more) == start + SpellAll(ts + more)
  {
    hide SpellAll;
    SpellConcat(ts, more);
    assert (start + SpellAll(ts)) + SpellAll(more) == start + (SpellAll(ts) + SpellAll(more));
  }

  lemma First(start: string, t: Tok)
    ensures start + Spell(t) == start + SpellAll([t])
  {
    hide Spell;
    assert [t][..0] == [];
    assert SpellAll([t]) == SpellAll([t][..0]) + Spell(t) == Spell(t);
  }

  lemma MoreTok(base: seq<Tok>, start: string, ts: seq<Tok>, t: Tok)
    ensures (base + ts) + [t] == base + (ts + [t])
    ensures (start + SpellAll(ts)) + Spell(t) == start + SpellAll(ts + [t])
  {
    hide Spell;
    assert (ts + [t])[..|ts + [t]| - 1] == ts;
    assert (start + SpellAll(ts)) + Spell(t) == start + (SpellAll(ts) + Spell(t));
  }

  /** Since the buffer held `base` and `start`, exactly the flat spelling of `ts` has been appended. */
  ghost predicate Wrote(out: Buffer, base: seq<Tok>, start: string, ts: seq<Tok>)
    reads out
  {
    out.Valid() && out.toks == base + ts && out.text == start + SpellAll(ts)
  }

  /** `write_node`. */
  method WriteNode(n: Node, out: Buffer)
    requires out.Valid()
    modifies out
    ensures Wrote(out, old(out.toks), old(out.text), FlatNode(n))
    decreases n
  {
    hide Spell, SpellAll, FlatKind, Renders;
    ghost var base, start := out.toks, out.text;
    ghost var ts: seq<Tok> := [];
    SpellNone();
    for i := 0 to |n.leading|
      invariant ts == LeadComments(n.leading)[..i]
      invariant Wrote(out, base, start, ts)
    {
      SpellComments(n.leading[i]);
      out.PushTok(LeadComment(n.leading[i]), ";" + n.leading[i] + "\n");
      MoreTok(base, start, ts, LeadComment(n.leading[i]));
      ts := ts + [LeadComment(n.leading[i])];
    }
    WriteKind(n.kind, out);
    More(base, start, ts, FlatKind(n.kind));
    ts := ts + FlatKind(n.kind);
    if n.trailing.Some? {
      SpellComments(n.trailing.value);
      out.PushTok(TrailComment(n.trailing.value), " ;" + n.trailing.value);
      MoreTok(base, start, ts, TrailComment(n.trailing.value));
      ts := ts + [TrailComment(n.trailing.value)];
    }
    assert ts == FlatNode(n);
  }

  lemma SpellComments(c: string)
    ensures Spells(LeadComment(c), ";" + c + "\n") && Spell(LeadComment(c)) == ";" + c + "\n"
    ensures Spells(TrailComment(c), " ;" + c) && Spell(TrailComment(c)) == " ;" + c
  {
    LeadSpells(c, "");
    assert "" + (";" + c + "\n") == ";" + c + "\n";
  }

  lemma SpellNone()
    ensures SpellAll([]) == ""
  {
  }

  /** `write_kind`. */
  method WriteKind(k: Kind, out: Buffer)
    requires out.Valid()
    modifies out
    ensures Wrote(out, old(out.toks), old(out.text), FlatKind(k))
    decreases k
  {
    hide SpellAll, FlatNode, FlatItems, FlatPairs, MultilineText, PrefixText, Renders;
    ghost var base, start := out.toks, out.text;
    SpellNone();
    match k
    case Atomic(a) =>
      if a.Str? && '\n' in a.s {
        out.PushTok(Block(a.s), MultilineText(a.s, 0));
      } else {
        WriteAtom(a, out);
      }
      First(start, AtomTok(a));
    case List(items) =>
      if IsPostfixQuestion(items) {
        WriteNode(items[1], out);
        out.PushWord("?");
        MoreTok(base, start, FlatNode(items[1]), Word("?"));
      } else {
        WriteDelimited("(", items, ")", out);
      }
    case Vector(items) => WriteDelimited("[", items, "]", out);
    case Set(items) =>
      out.PushWord("#");
      First(start, Word("#"));
      WriteDelimited("{", items, "}", out);
      ghost var braced := Delimited("{", FlatItems(items), "}");
      More(base, start, [Word("#")], braced);
      assert [Word("#")] + braced == FlatKind(k);
    case Map(pairs) =>
      out.PushWord("{");
      First(start, Word("{"));
      WritePairs(pairs, out);
      More(base, start, [Word("{")], FlatPairs(pairs));
      out.PushWord("}");
      MoreTok(base, start, [Word("{")] + FlatPairs(pairs), Word("}"));
    case Prefixed(p, inner) =>
      out.PushWord(PrefixText(p));
      First(start, Word(PrefixText(p)));
      WriteNode(inner, out);
      More(base, start, [Word(PrefixText(p))], FlatNode(inner));
  }

  /** An opening delimiter, `write_sep` over the items, a closing delimiter. */
  method WriteDelimited(open: string, items: seq<Node>, close: string, out: Buffer)
    requires out.Valid()
    modifies out
    ensures Wrote(out, old(out.toks), old(out.text), Delimited(open, FlatItems(items), close))
    decreases items, 1
  {
    hide SpellAll, FlatItems, Renders;
    ghost var base, start := out.toks, out.text;
    SpellNone();
    out.PushWord(open);
    First(start, Word(open));
    WriteSep(items, out);
    More(base, start, [Word(open)], FlatItems(items));
    out.PushWord(close);
    MoreTok(base, start, [Word(open)] + FlatItems(items), Word(close));
  }

  /** `write_sep` with `write_node`. */
  method WriteSep(items: seq<Node>, out: Buffer)
    requires out.Valid()
    modifies out
    ensures Wrote(out, old(out.toks), old(out.text), FlatItems(items))
    decreases items, 0
  {
    hide SpellAll, FlatNode, Renders;
    ghost var base, start := out.toks, out.text;
    SpellNone();
    for i := 0 to |items|
      invariant Wrote(out, base, start, FlatItems(items[..i]))
    {
      hide FlatItems;
      FlatItemsNext(items, i);
      ghost var ts := FlatItems(items[..i]);
      if i > 0 {
        out.PushWhite(' ');
        MoreTok(base, start, ts, Gap);
        ts := ts + [Gap];
      }
      WriteNode(items[i], out);
      More(base, start, ts, FlatNode(items[i]));
    }
    assert items[..|items|] == items;
  }

  method WritePairs(pairs: seq<Entry>, out: Buffer)
    requires out.Valid()
    modifies out
    ensures Wrote(out, old(out.toks), old(out.text), FlatPairs(pairs))
    decreases pairs, 0
  {
    hide SpellAll, FlatNode, Renders;
    ghost var base, start := out.toks, out.text;
    SpellNone();
    for i := 0 to |pairs|
      invariant Wrote(out, base, start, FlatPairs(pairs[..i]))
    {
      hide FlatPairs;
      FlatPairsNext(pairs, i);
      ghost var ts := FlatPairs(pairs[..i]);
      if i > 0 {
        out.PushWhite(' ');
        MoreTok(base, start, ts, Gap);
        ts := ts + [Gap];
      }
      WriteEntry(pairs[i], out);
      More(base, start, ts, FlatEntry(pairs[i]));
    }
    assert pairs[..|pairs|] == pairs;
  }

  method WriteEntry(e: Entry, out: Buffer)
    requires out.Valid()
    modifies out
    ensures Wrote(out, old(out.toks), old(out.text), FlatEntry(e))
    decreases e
  {
    hide SpellAll, FlatNode, Renders;
    ghost var base, start := out.toks, out.text;
    WriteNode(e.key, out);
    out.PushWhite(' ');
    MoreTok(base, start, FlatNode(e.key), Gap);
    WriteNode(e.val, out);
    More(base, start, FlatNode(e.key) + [Gap], FlatNode(e.val));
  }

  // ---------------------------------------------------------------------------------------------
  // What the layout engines keep
  // ---------------------------------------------------------------------------------------------

  /** The node without its comments. */
  function Bare(n: Node): Node {
    n.(leading := [], trailing := None)
  }

  /**
   The nodes of a let-else vector that `collect_let_binding_groups` puts into groups, in order: it drops a `mut`
   before a pattern, an incomplete last group, a `|` without a fallback, and the comments of every other `|`.
  */
  function Regrouped(bindings: seq<Node>, i: nat): seq<Node>
    requires i <= |bindings|
    decreases |bindings| - i
  {
    if i == |bindings| then []
    else
      var p := if IsMut(bindings[i]) then i + 1 else i;
      if p + 1 >= |bindings| then []
      else if p + 2 < |bindings| && IsPipe(bindings[p + 2]) then
        if p + 3 < |bindings| then
          [bindings[p], bindings[p + 1], Bare(bindings[p + 2]), bindings[p + 3]] + Regrouped(bindings, p + 4)
        else bindings[p..p + 2]
      else bindings[p..p + 2] + Regrouped(bindings, p + 2)
  }

  predicate HasElse(bindings: seq<Node>) {
    exists x <- bindings :: IsPipe(x)
  }

  /** The layout engines for lists. */
  datatype Engine = Deftype | Body | Let | If | Cond | Match | Module | Call

  /** `write_list_indented`: the engine chosen by the head symbol. */
  function EngineOf(items: seq<Node>): Engine
    requires items != []
  {
    match HeadName(items)
    case None => Call
    case Some(head) =>
      if head == "deftype" then Deftype
      else if IsBodyIndentForm(head) then Body
      else if head == "let" || head == "loop" then Let
      else if head == "if" then If
      else if head == "cond" then Cond
      else if head == "match" then Match
      else if head == "module" then Module
      else Call
  }

  /** The binding vector goes through the let-else engine. */
  predicate UsesLetElse(items: seq<Node>)
    requires items != []
  {
    EngineOf(items).Let? && VectorAt(items, 1) && HasElse(items[1].kind.items)
  }

  /** The binding vector goes through the aligned engine. */
  predicate UsesColumns(align: bool, items: seq<Node>)
    requires items != []
  {
    EngineOf(items).Let? && VectorAt(items, 1) && !HasElse(items[1].kind.items) && align &&
    |items[1].kind.items| >= 4 && |items[1].kind.items| % 2 == 0
  }

  /** The body of a `deftype` from `i` on: the comments of every `|` that introduces a variant are dropped. */
  function Variants(items: seq<Node>, i: nat): seq<Node>
    decreases |items| - i
  {
    if i >= |items| then []
    else if !IsPipe(items[i]) then [items[i]] + Variants(items, i + 1)
    else if i + 1 == |items| then [Bare(items[i])]
    else [Bare(items[i]), items[i + 1]] + Variants(items, i + 2)
  }

  /** The body of a `deftype` without `|`, from `i` on: the comments of maps are dropped. */
  function Records(items: seq<Node>, i: nat): seq<Node>
    decreases |items| - i
  {
    if i >= |items| then []
    else [if items[i].kind.Map? then Bare(items[i]) else items[i]] + Records(items, i + 1)
  }

  function DeftypeBody(items: seq<Node>): seq<Node>
    requires |items| >= 2
  {
    if HasElse(items[2..]) then Variants(items, 2) else Records(items, 2)
  }

  /** Only complete test/result (pattern/body) pairs from `first` on reach the aligned layout of `cond` (`match`). */
  function KeptPairs(align: bool, items: seq<Node>, first: nat): seq<Node>
    requires first <= |items|
  {
    var rest := |items| - first;
    if align && rest % 2 == 1 && rest / 2 >= 2 then items[..|items| - 1] else items
  }

  /** The items that the layout engine of a list prints, as it prints them. */
  function Kept(align: bool, items: seq<Node>): seq<Node>
    requires items != [] && Indentable(items)
  {
    match EngineOf(items)
    case Cond => KeptPairs(align, items, 1)
    case Match => KeptPairs(align, items, 2)
    case Let =>
      if UsesLetElse(items) then items[1 := Bare(items[1]).(kind := Vector(Regrouped(items[1].kind.items, 0)))]
      else if UsesColumns(align, items) then items[1 := Bare(items[1])]
      else items
    case Deftype => items[..2] + DeftypeBody(items)
    case _ => items
  }

  /** The last variant of a `deftype` body is missing after its `|` (a `|` right after a `|` is a variant). */
  predicate DanglingPipe(items: seq<Node>, i: nat)
    requires i <= |items|
    decreases |items| - i
  {
    i < |items| &&
    if !IsPipe(items[i]) then DanglingPipe(items, i + 1)
    else if i + 1 == |items| then true
    else DanglingPipe(items, i + 2)
  }

  predicate EndsInPipe(items: seq<Node>)
    requires items != []
  {
    EngineOf(items).Deftype? && |items| >= 2 && DanglingPipe(items, 2)
  }

  /** What the layout engine of a list emits: the flat tokens of the kept items, with a gap after a dangling `|`. */
  function Emitted(align: bool, items: seq<Node>): seq<Tok>
    requires items != [] && Indentable(items)
  {
    [Word("(")] + FlatItems(Kept(align, items)) + (if EndsInPipe(items) then [Gap] else []) + [Word(")")]
  }

  /** The engines for `deftype` and `match` slice `items[2..]`. */
  predicate Indentable(items: seq<Node>) {
    Sliceable(items) && (items != [] && (EngineOf(items).Deftype? || EngineOf(items).Match?) ==> |items| >= 2)
  }

  predicate IsBare(n: Node) {
    n.leading == [] && n.trailing == None
  }

  /** Complete let-else groups without `mut` and without comments on `|`. */
  predicate WellGrouped(bindings: seq<Node>, i: nat)
    requires i <= |bindings|
    decreases |bindings| - i
  {
    i == |bindings| ||
    (!IsMut(bindings[i]) && i + 1 < |bindings| &&
     if i + 2 < |bindings| && IsPipe(bindings[i + 2]) then
       i + 3 < |bindings| && IsBare(bindings[i + 2]) && WellGrouped(bindings, i + 4)
     else WellGrouped(bindings, i + 2))
  }

  predicate BareVariants(items: seq<Node>, i: nat)
    decreases |items| - i
  {
    i >= |items| ||
    if !IsPipe(items[i]) then BareVariants(items, i + 1) else IsBare(items[i]) && BareVariants(items, i + 2)
  }

  predicate BareBody(items: seq<Node>)
    requires |items| >= 2
  {
    if HasElse(items[2..]) then BareVariants(items, 2)
    else forall k | 2 <= k < |items| && items[k].kind.Map? :: IsBare(items[k])
  }

  /**
   When columns are aligned, `cond` has test/result pairs and `match` has pattern/body arms (a dangling item is harmless
   while there is at most one complete pair). Let-else vectors are well grouped, and no `deftype` ends in a dangling
   `|`. There are no comments on the binding vectors of the let-else and the aligned layout, on the `|` of `deftype`
   variants and on the maps of `deftype` records.
  */
  predicate Paired(align: bool, items: seq<Node>)
    requires items != [] && Indentable(items)
  {
    && (align && EngineOf(items).Cond? ==> |items| % 2 == 1 || |items| <= 4)
    && (align && EngineOf(items).Match? ==> |items| % 2 == 0 || |items| <= 5)
    && (UsesLetElse(items) || UsesColumns(align, items) ==> IsBare(items[1]))
    && (UsesLetElse(items) ==> WellGrouped(items[1].kind.items, 0))
    && (EngineOf(items).Deftype? ==> BareBody(items))
    && !EndsInPipe(items)
  }

  predicate AllMeasurable(items: seq<Node>) {
    forall i | 0 <= i < |items| :: Measurable(items[i])
  }

  /**
   Trees whose `cond`, `match`, `deftype` and let-else forms are complete, without comments where engines drop them.
  */
  predicate Printable(align: bool, n: Node)
    ensures Printable(align, n) ==> Measurable(n)
    decreases n
  {
    PrintableKind(align, n.kind)
  }

  predicate PrintableKind(align: bool, k: Kind)
    ensures PrintableKind(align, k) ==> MeasurableKind(k)
    decreases k
  {
    match k
    case Atomic(_) => true
    case List(items) => Indentable(items) && (items != [] ==> Paired(align, items)) && AllPrintable(align, items)
    case Vector(items) => AllPrintable(align, items)
    case Set(items) => AllPrintable(align, items)
    case Map(pairs) => forall i | 0 <= i < |pairs| :: PrintableEntry(align, pairs[i])
    case Prefixed(_, inner) => Printable(align, inner)
  }

  predicate PrintableEntry(align: bool, e: Entry)
    ensures PrintableEntry(align, e) ==> MeasurableEntry(e)
    decreases e
  {
    Printable(align, e.key) && Printable(align, e.val)
  }

  predicate AllPrintable(align: bool, items: seq<Node>)
    ensures AllPrintable(align, items) ==>
            AllMeasurable(items) && forall i | 0 <= i < |items| :: Printable(align, items[i])
    decreases items
  {
    forall i | 0 <= i < |items| :: Printable(align, items[i])
  }

  // ---------------------------------------------------------------------------------------------
  // Layout engines
  // ---------------------------------------------------------------------------------------------

  /** A list opened by `open` whose items so far are `items`. */
  function Opened(base: seq<Tok>, open: string, items: seq<Node>): seq<Tok> {
    base + [Word(open)] + FlatItems(items)
  }

  function Closed(base: seq<Tok>, open: string, items: seq<Node>, close: string): seq<Tok> {
    Opened(base, open, items) + [Word(close)]
  }

  /** White space after some items and then an item is one item more. */
  lemma Steps(base: seq<Tok>, open: string, items: seq<Node>, next: Node)
    ensures items == [] ==> base + [Word(open)] == Opened(base, open, items)
    ensures items == [] ==> Opened(base, open, items) + FlatNode(next) == Opened(base, open, [next])
    ensures items != [] ==> Spaced(Opened(base, open, items)) + FlatNode(next) == Opened(base, open, items + [next])
  {
    hide FlatNode;
    assert (items + [next])[..|items|] == items;
    if items != [] {
      assert Spaced(Opened(base, open, items)) == base + [Word(open)] + FlatItems(items) + [Gap];
    }
  }

  /** `Steps` for the prefix of length `k` of a list. */
  lemma StepsAt(base: seq<Tok>, open: string, items: seq<Node>, k: nat)
    requires k < |items|
    ensures k == 0 ==> base + [Word(open)] == Opened(base, open, items[..0])
    ensures k == 0 ==> Opened(base, open, items[..0]) + FlatNode(items[0]) == Opened(base, open, items[..1])
    ensures k > 0 ==> Spaced(Opened(base, open, items[..k])) + FlatNode(items[k]) == Opened(base, open, items[..k + 1])
  {
    hide FlatNode, FlatItems, Opened, Spaced;
    assert items[..k] + [items[k]] == items[..k + 1];
    assert items[..1] == [items[0]];
    Steps(base, open, items[..k], items[k]);
  }

  ghost predicate Holds(out: Buffer, toks: seq<Tok>)
    reads out
  {
    out.Valid() && out.toks == toks
  }

  /** `write_node_indented`. */
  method WriteNodeIndented(cfg: PrintConfig, n: Node, out: Buffer, indent: nat, column: nat)
    requires out.Valid() && Printable(cfg.alignColumns, n)
    modifies out
    ensures Holds(out, old(out.toks) + FlatNode(n))
    decreases n
  {
    hide FlatKind, Renders, FlatLenKind, Bytes, Spells, Spell, Spaced, LeadComments;
    ghost var base := out.toks;
    AfterComments(base, n.leading);
    for i := 0 to |n.leading|
      invariant Holds(out, base + LeadComments(n.leading)[..i])
    {
      out.PushLead(indent, n.leading[i]);
    }
    var hasLeading := n.leading != [];
    var effective := if hasLeading then indent else column;
    var trailing := if n.trailing.Some? then 2 + Bytes(n.trailing.value) else 0;
    var total := SatAdd(FlatLenKind(n.kind), trailing);
    if hasLeading {
      out.PushIndent(indent);
    }
    if total != MAX && SatAdd(effective, total) <= cfg.maxLineWidth {
      WriteKind(n.kind, out);
    } else {
      WriteKindIndented(cfg, n.kind, out, indent, effective);
    }
    if n.trailing.Some? {
      SpellComments(n.trailing.value);
      out.PushTok(TrailComment(n.trailing.value), " ;" + n.trailing.value);
    }
  }

  /** A comment line absorbs the indentation after it. */
  lemma AfterComments(base: seq<Tok>, leading: seq<string>)
    ensures leading != [] ==> Spaced(base + LeadComments(leading)) == base + LeadComments(leading)
    ensures LeadComments(leading)[..|leading|] == LeadComments(leading)
  {
  }

  /** A line break before an item. Most engines leave the indentation to the comments of the item, if it has any. */
  method BreakBefore(n: Node, out: Buffer, at: nat, always: bool)
    requires out.Valid()
    modifies out
    ensures Holds(out, Spaced(old(out.toks)))
  {
    out.PushWhite('\n');
    if always || n.leading == [] {
      out.PushIndent(at);
    }
  }

  /** `write_kind_indented`. */
  method WriteKindIndented(cfg: PrintConfig, k: Kind, out: Buffer, indent: nat, column: nat)
    requires out.Valid() && PrintableKind(cfg.alignColumns, k)
    modifies out
    ensures Holds(out, old(out.toks) + FlatKind(k))
    decreases k
  {
    hide FlatNode, FlatItems, FlatPairs, Renders, Emitted, Kept, Paired, EngineOf, PrefixText, AtomText, Delimited,
      FlatKind;
    KindTokens(out.toks, k);
    match k
    case Atomic(a) => WriteAtomIndented(a, out, indent);
    case List(items) => WriteListNode(cfg, items, out, indent, column);
    case Vector(items) =>
      WriteCollectionIndented(cfg, items, out, column, "[", "]");
    case Set(items) =>
      out.PushWord("#");
      WriteCollectionIndented(cfg, items, out, column + 1, "{", "}");
    case Map(pairs) =>
      WriteMapIndented(cfg, pairs, out, column);
    case Prefixed(p, inner) =>
      out.PushWord(PrefixText(p));
      WriteNodeIndented(cfg, inner, out, indent, column + |PrefixText(p)|);
  }

  /** The flat tokens of a node kind, piece by piece. */
  lemma KindTokens(base: seq<Tok>, k: Kind)
    ensures match k
            case Vector(items) => FlatKind(k) == Delimited("[", FlatItems(items), "]")
            case Set(items) => (base + [Word("#")]) + Delimited("{", FlatItems(items), "}") == base + FlatKind(k)
            case Map(pairs) => FlatKind(k) == Delimited("{", FlatPairs(pairs), "}")
            case Prefixed(p, inner) => (base + [Word(PrefixText(p))]) + FlatNode(inner) == base + FlatKind(k)
            case _ => true
  {
    hide FlatNode, FlatItems, FlatPairs, Delimited, PrefixText;
  }

  /** An atom in the indented printer: strings with newlines are written line by line. */
  method WriteAtomIndented(a: Atom, out: Buffer, indent: nat)
    requires out.Valid()
    modifies out
    ensures Holds(out, old(out.toks) + FlatKind(Atomic(a)))
  {
    hide Renders, MultilineText, AtomText;
    if a.Str? && '\n' in a.s {
      assert Spells(Block(a.s), MultilineText(a.s, indent));
      out.PushTok(Block(a.s), MultilineText(a.s, indent));
    } else {
      WriteAtom(a, out);
    }
  }

  /** A list in the indented printer: `()`, `expr?`, or a form with a layout engine. */
  method WriteListNode(cfg: PrintConfig, items: seq<Node>, out: Buffer, indent: nat, column: nat)
    requires out.Valid() && PrintableKind(cfg.alignColumns, List(items))
    modifies out
    ensures Holds(out, old(out.toks) + FlatKind(List(items)))
    decreases items, 4
  {
    hide FlatNode, FlatItems, FlatPairs, Renders, Emitted, Kept, Paired, EngineOf, Delimited;
    if items == [] {
      out.PushWord("(");
      out.PushWord(")");
      EmptyList();
    } else if IsPostfixQuestion(items) {
      WriteNodeIndented(cfg, items[1], out, indent, column);
      out.PushWord("?");
    } else {
      EmittedFlat(cfg.alignColumns, items);
      WriteListIndented(cfg, items, out, indent, column);
    }
  }

  /** On paired forms the engines emit the flat tokens. */
  lemma EmittedFlat(align: bool, items: seq<Node>)
    requires items != [] && Indentable(items) && Paired(align, items) && !IsPostfixQuestion(items)
    ensures Emitted(align, items) == FlatKind(List(items))
  {
    hide FlatItems, EngineOf;
    KeptAll(align, items);
  }

  lemma EmptyList()
    ensures FlatKind(List([])) == [Word("("), Word(")")]
  {
  }

  lemma EmptyItems()
    ensures FlatItems([]) == [] && FlatPairs([]) == []
  {
  }

  /** `write_list_indented`: the engine chosen by the head symbol. */
  method WriteListIndented(cfg: PrintConfig, items: seq<Node>, out: Buffer, indent: nat, column: nat)
    requires out.Valid() && items != [] && !IsPostfixQuestion(items) && Indentable(items) &&
             AllPrintable(cfg.alignColumns, items)
    modifies out
    ensures Holds(out, old(out.toks) + Emitted(cfg.alignColumns, items))
    decreases items, 3
  {
    hide FlatNode, FlatItems, Printable, Renders, Kept, EndsInPipe, Opened, EngineOf;
    EmittedBy(out.toks, cfg.alignColumns, items);
    match EngineOf(items)
    case Deftype => WriteDeftypeForm(cfg, items, out, indent);
    case Body => WriteBodyForm(cfg, items, out, indent);
    case Let => WriteLetForm(cfg, items, out, indent);
    case If => WriteIfForm(cfg, items, out, indent);
    case Cond => WriteCondForm(cfg, items, out, indent);
    case Match => WriteMatchForm(cfg, items, out, column);
    case Module => WriteModuleForm(cfg, items, out, indent);
    case Call => WriteCallForm(cfg, items, out, indent, column);
  }

  /** `Emitted`, engine by engine. */
  lemma EmittedBy(base: seq<Tok>, align: bool, items: seq<Node>)
    requires items != [] && Indentable(items)
    ensures base + Emitted(align, items) ==
            match EngineOf(items)
            case Deftype =>
              Opened(base, "(", items[..2] + DeftypeBody(items)) +
              (if DanglingPipe(items, 2) then [Gap] else []) + [Word(")")]
            case Let => Closed(base, "(", Kept(align, items), ")")
            case Cond => Closed(base, "(", KeptPairs(align, items, 1), ")")
            case Match => Closed(base, "(", KeptPairs(align, items, 2), ")")
            case _ => Closed(base, "(", items, ")")
  {
    hide FlatItems, EngineOf, Regrouped, DeftypeBody, DanglingPipe;
  }

  /** `flat_len(n).min(limit)`. */
  function Capped(n: Node, limit: nat): nat
    requires Measurable(n)
  {
    Min(FlatLen(n), limit)
  }

  function CappedKind(n: Node, limit: nat): nat
    requires Measurable(n)
  {
    Min(FlatLenKind(n.kind), limit)
  }

  function PatternWidth(bindings: seq<Node>, groups: seq<Group>): nat
    requires AllMeasurable(bindings) && forall i | 0 <= i < |groups| :: GroupIn(groups[i], bindings)
  {
    MaxOf(seq(|groups|, i requires 0 <= i < |groups| =>
      assert GroupIn(groups[i], bindings); Capped(bindings[groups[i].pat], 40)))
  }

  function BindingWidth(bindings: seq<Node>): nat
    requires AllMeasurable(bindings)
  {
    MaxOf(seq(|bindings| / 2, j requires 0 <= j < |bindings| / 2 => CappedKind(bindings[2 * j], 40)))
  }

  function KeyWidth(pairs: seq<Entry>): nat
    requires forall i | 0 <= i < |pairs| :: MeasurableEntry(pairs[i])
  {
    MaxOf(seq(|pairs|, i requires 0 <= i < |pairs| =>
      assert MeasurableEntry(pairs[i]); Capped(pairs[i].key, 40)))
  }

  /** The loop shared by several engines: every item from `first` on goes on a line of its own at `at`. */
  method WriteOwnLines(
    cfg: PrintConfig, items: seq<Node>, first: nat, out: Buffer, at: nat, always: bool, ghost base: seq<Tok>)
    requires 0 < first <= |items| && AllPrintable(cfg.alignColumns, items)
    requires Holds(out, Opened(base, "(", items[..first]))
    modifies out
    ensures Holds(out, Opened(base, "(", items))
    decreases items, 0
  {
    hide FlatNode, FlatItems, Printable, Renders, Opened, FlatLen, Spaced, Measurable;
    for i := first to |items|
      invariant Holds(out, Opened(base, "(", items[..i]))
    {
      StepsAt(base, "(", items, i);
      BreakBefore(items[i], out, at, always);
      WriteNodeIndented(cfg, items[i], out, at, at);
    }
    assert items[..|items|] == items;
  }

  /** The head of a form after its parenthesis. */
  method WriteHead(cfg: PrintConfig, items: seq<Node>, out: Buffer, indent: nat, column: nat)
    requires out.Valid() && items != [] && AllPrintable(cfg.alignColumns, items)
    modifies out
    ensures Holds(out, Opened(old(out.toks), "(", items[..1]))
    decreases items, 0
  {
    hide FlatNode, FlatItems, Printable, Renders, Opened, FlatLen, Spaced, Measurable;
    StepsAt(out.toks, "(", items, 0);
    out.PushWord("(");
    WriteNodeIndented(cfg, items[0], out, indent, column);
  }

  /** The next item on the same line after one space. */
  method WriteSameLine(cfg: PrintConfig, items: seq<Node>, k: nat, out: Buffer, indent: nat, column: nat,
                       ghost base: seq<Tok>)
    requires 0 < k < |items| && AllPrintable(cfg.alignColumns, items)
    requires Holds(out, Opened(base, "(", items[..k]))
    modifies out
    ensures Holds(out, Opened(base, "(", items[..k + 1]))
    decreases items, 0
  {
    hide FlatNode, FlatItems, Printable, Renders, Opened, FlatLen, Spaced, Measurable;
    StepsAt(base, "(", items, k);
    out.PushWhite(' ');
    WriteNodeIndented(cfg, items[k], out, indent, column);
  }

  method WriteBodyForm(cfg: PrintConfig, items: seq<Node>, out: Buffer, indent: nat)
    requires out.Valid() && items != [] && AllPrintable(cfg.alignColumns, items)
    modifies out
    ensures Holds(out, Closed(old(out.toks), "(", items, ")"))
    decreases items, 1
  {
    hide FlatNode, FlatItems, Printable, Renders, Opened, FlatLen, Spaced, Measurable;
    ghost var base := out.toks;
    var bodyIndent := indent + cfg.indentWidth;
    var leading := BodyFormLeadingCount(HeadName(items).GetOr(""), items);
    WriteHead(cfg, items, out, bodyIndent, indent + 1);
    var col: nat := indent + 1 + Capped(items[0], cfg.maxLineWidth);
    for i := 1 to leading
      invariant Holds(out, Opened(base, "(", items[..i]))
    {
      WriteSameLine(cfg, items, i, out, bodyIndent, col + 1, base);
      col := col + 1 + Capped(items[i], cfg.maxLineWidth);
    }
    WriteOwnLines(cfg, items, leading, out, bodyIndent, false, base);
    out.PushWord(")");
  }

  method WriteIfForm(cfg: PrintConfig, items: seq<Node>, out: Buffer, indent: nat)
    requires out.Valid() && items != [] && AllPrintable(cfg.alignColumns, items)
    modifies out
    ensures Holds(out, Closed(old(out.toks), "(", items, ")"))
    decreases items, 1
  {
    hide FlatNode, FlatItems, Printable, Renders, Opened, FlatLen, Spaced, Measurable;
    ghost var base := out.toks;
    var bodyIndent := indent + cfg.indentWidth;
    WriteHead(cfg, items, out, indent + 1, indent + 1);
    if |items| > 1 {
      WriteSameLine(cfg, items, 1, out, bodyIndent, indent + 1 + Capped(items[0], 10) + 1, base);
    }
    WriteOwnLines(cfg, items, Min(2, |items|), out, bodyIndent, false, base);
    out.PushWord(")");
  }

  method WriteModuleForm(cfg: PrintConfig, items: seq<Node>, out: Buffer, indent: nat)
    requires out.Valid() && items != [] && AllPrintable(cfg.alignColumns, items)
    modifies out
    ensures Holds(out, Closed(old(out.toks), "(", items, ")"))
    decreases items, 1
  {
    hide FlatNode, FlatItems, Printable, Renders, Opened, FlatLen, Spaced, Measurable;
    ghost var base := out.toks;
    var bodyIndent := indent + cfg.indentWidth;
    WriteHead(cfg, items, out, indent + 1, indent + 1);
    var i := 1;
    if |items| > 1 {
      WriteSameLine(cfg, items, 1, out, bodyIndent, indent + 1 + Capped(items[0], 40) + 1, base);
      i := 2;
    }
    while i + 1 < |items|
      invariant 0 < i <= |items| && (|items| > 1 ==> i >= 2)
      invariant Holds(out, Opened(base, "(", items[..i]))
    {
      StepsAt(base, "(", items, i);
      BreakBefore(items[i], out, bodyIndent, false);
      WriteNodeIndented(cfg, items[i], out, bodyIndent, bodyIndent);
      WriteSameLine(cfg, items, i + 1, out, bodyIndent, bodyIndent + Capped(items[i], 40) + 1, base);
      i := i + 2;
    }
    WriteOwnLines(cfg, items, i, out, bodyIndent, false, base);
    out.PushWord(")");
  }

  method WriteCallForm(cfg: PrintConfig, items: seq<Node>, out: Buffer, indent: nat, column: nat)
    requires out.Valid() && items != [] && Sliceable(items) && !IsPostfixQuestion(items) &&
             AllPrintable(cfg.alignColumns, items)
    modifies out
    ensures Holds(out, Closed(old(out.toks), "(", items, ")"))
    decreases items, 1
  {
    hide FlatNode, FlatItems, Printable, Renders, Opened, FlatLen, Spaced, Measurable;
    ghost var base := out.toks;
    var flat := FlatLenKind(List(items));
    if flat != MAX && SatAdd(column, flat) <= cfg.maxLineWidth {
      WriteDelimited("(", items, ")", out);
      DelimitedIsClosed(base, "(", items, ")");
      return;
    }
    WriteHead(cfg, items, out, indent + 1, column + 1);
    if |items| > 1 {
      var firstArgCol := column + 1 + Capped(items[0], 40) + 1;
      WriteSameLine(cfg, items, 1, out, firstArgCol, firstArgCol, base);
      WriteOwnLines(cfg, items, 2, out, firstArgCol, true, base);
    } else {
      assert items[..1] == items;
    }
    out.PushWord(")");
  }

  lemma DelimitedIsClosed(base: seq<Tok>, open: string, items: seq<Node>, close: string)
    ensures base + Delimited(open, FlatItems(items), close) == Closed(base, open, items, close)
  {
    hide FlatItems;
  }

  /**
   A test and its result (or a pattern and its body): the result follows on the same line, or, when it is a
   compound form that does not fit, on the next.
  */
  method WritePair(cfg: PrintConfig, items: seq<Node>, k: nat, out: Buffer, at: nat, pad: bool, width: nat,
                   ghost base: seq<Tok>)
    requires 0 < k && k + 1 < |items| && AllPrintable(cfg.alignColumns, items)
    requires Holds(out, Opened(base, "(", items[..k]))
    modifies out
    ensures Holds(out, Opened(base, "(", items[..k + 2]))
    decreases items, 0
  {
    hide FlatNode, FlatItems, Printable, Renders, Opened, FlatLen, Spaced, Measurable;
    var test, result := items[k], items[k + 1];
    StepsAt(base, "(", items, k);
    out.NewLine(at);
    WriteNodeIndented(cfg, test, out, at, at);
    StepsAt(base, "(", items, k + 1);
    var testLen := Capped(test, 40);
    var resultCol := if pad then at + width + 1 else at + testLen + 1;
    var resultLen := FlatLen(result);
    var fitsInline := resultLen != MAX && resultCol + resultLen <= cfg.maxLineWidth;
    if !fitsInline && IsCompound(result.kind) {
      var armIndent := at + cfg.indentWidth;
      out.NewLine(armIndent);
      WriteNodeIndented(cfg, result, out, armIndent, armIndent);
    } else {
      out.PadGap(if pad && testLen < width then width - testLen else 0);
      WriteNodeIndented(cfg, result, out, at, resultCol);
    }
  }

  /** The widths of the complete pairs of `items` from `first` on, at offset 0 or 1, capped at `limit`. */
  function PairWidths(items: seq<Node>, first: nat, offset: nat, limit: nat): seq<nat>
    requires offset <= 1 && first <= |items| && AllMeasurable(items)
  {
    seq((|items| - first) / 2, j requires 0 <= j < (|items| - first) / 2 =>
      Capped(items[first + 2 * j + offset], limit))
  }

  /** The clauses of `cond` (from item 1) and the arms of `match` (from item 2). */
  method WriteClauses(cfg: PrintConfig, items: seq<Node>, first: nat, out: Buffer, at: nat, ghost base: seq<Tok>)
    requires 0 < first <= |items| && AllPrintable(cfg.alignColumns, items)
    requires Holds(out, Opened(base, "(", items[..first]))
    modifies out
    ensures Holds(out, Opened(base, "(", KeptPairs(cfg.alignColumns, items, first)))
    decreases items, 1
  {
    hide FlatNode, FlatItems, Printable, Renders, Opened, FlatLen, Spaced, Measurable;
    var count := (|items| - first) / 2;
    if cfg.alignColumns && count >= 2 {
      var width := MaxOf(PairWidths(items, first, 0, 40));
      var resultWidth := MaxOf(PairWidths(items, first, 1, cfg.maxLineWidth));
      var pad := at + width + 1 + resultWidth <= cfg.maxLineWidth;
      for j := 0 to count
        invariant Holds(out, Opened(base, "(", items[..first + 2 * j]))
      {
        WritePair(cfg, items, first + 2 * j, out, at, pad, width, base);
      }
      assert items[..first + 2 * count] == KeptPairs(cfg.alignColumns, items, first);
    } else {
      var i := first;
      while i < |items|
        invariant first <= i <= |items|
        invariant Holds(out, Opened(base, "(", items[..i]))
      {
        if i + 1 < |items| {
          WritePair(cfg, items, i, out, at, false, 0, base);
          i := i + 2;
        } else {
          WriteOwnLines(cfg, items, i, out, at, true, base);
          i := i + 1;
          assert items[..i] == items;
        }
      }
      assert items[..i] == items;
    }
  }

  method WriteCondForm(cfg: PrintConfig, items: seq<Node>, out: Buffer, indent: nat)
    requires out.Valid() && items != [] && AllPrintable(cfg.alignColumns, items)
    modifies out
    ensures Holds(out, Closed(old(out.toks), "(", KeptPairs(cfg.alignColumns, items, 1), ")"))
    decreases items, 2
  {
    hide FlatNode, FlatItems, Printable, Renders, Opened, FlatLen, Spaced, Measurable;
    ghost var base := out.toks;
    WriteHead(cfg, items, out, indent + 1, indent + 1);
    WriteClauses(cfg, items, 1, out, indent + cfg.indentWidth, base);
    out.PushWord(")");
  }

  method WriteMatchForm(cfg: PrintConfig, items: seq<Node>, out: Buffer, column: nat)
    requires out.Valid() && |items| >= 2 && AllPrintable(cfg.alignColumns, items)
    modifies out
    ensures Holds(out, Closed(old(out.toks), "(", KeptPairs(cfg.alignColumns, items, 2), ")"))
    decreases items, 2
  {
    hide FlatNode, FlatItems, Printable, Renders, Opened, FlatLen, Spaced, Measurable;
    ghost var base := out.toks;
    var bodyIndent := column + cfg.indentWidth;
    WriteHead(cfg, items, out, column + 1, column + 1);
    WriteSameLine(cfg, items, 1, out, bodyIndent, column + 1 + Capped(items[0], 10) + 1, base);
    WriteClauses(cfg, items, 2, out, bodyIndent, base);
    out.PushWord(")");
  }

  method WriteDeftypeForm(cfg: PrintConfig, items: seq<Node>, out: Buffer, indent: nat)
    requires out.Valid() && |items| >= 2 && AllPrintable(cfg.alignColumns, items)
    modifies out
    ensures Holds(out, Opened(old(out.toks), "(", items[..2] + DeftypeBody(items)) +
                       (if DanglingPipe(items, 2) then [Gap] else []) + [Word(")")])
    decreases items, 2
  {
    hide FlatNode, FlatItems, Printable, Renders, Opened, FlatLen, Spaced, Measurable, DanglingPipe, Variants, Records;
    ghost var base := out.toks;
    var bodyIndent := indent + cfg.indentWidth;
    WriteHead(cfg, items, out, indent + 1, indent + 1);
    WriteSameLine(cfg, items, 1, out, bodyIndent, indent + 1 + Capped(items[0], 40) + 1, base);
    if HasElse(items[2..]) {
      WriteVariants(cfg, items, out, bodyIndent, base);
    } else {
      NoPipeNoDangling(items, 2);
      WriteRecords(cfg, items, out, bodyIndent, base);
    }
    out.PushWord(")");
  }

  /** One variant on each line. */
  method WriteVariants(cfg: PrintConfig, items: seq<Node>, out: Buffer, bodyIndent: nat, ghost base: seq<Tok>)
    requires |items| >= 2 && AllPrintable(cfg.alignColumns, items)
    requires Holds(out, Opened(base, "(", items[..2]))
    modifies out
    ensures Holds(out, Opened(base, "(", items[..2] + Variants(items, 2)) +
                       if DanglingPipe(items, 2) then [Gap] else [])
    decreases items, 1
  {
    hide FlatNode, FlatItems, Printable, Renders, Opened, FlatLen, Spaced, Measurable, IsPipe;
    var i := 2;
    ghost var done := items[..2];
    while i < |items|
      invariant 2 <= i <= |items| && done != []
      invariant done + Variants(items, i) == items[..2] + Variants(items, 2)
      invariant i < |items| ==> DanglingPipe(items, 2) == DanglingPipe(items, i)
      invariant i == |items| ==> Holds(out, Opened(base, "(", done) + if DanglingPipe(items, 2) then [Gap] else [])
      invariant i < |items| ==> Holds(out, Opened(base, "(", done))
    {
      hide Variants;
      VariantsNext(done, items, i);
      out.NewLine(bodyIndent);
      if IsPipe(items[i]) {
        Steps(base, "(", done, Bare(items[i]));
        PipeToken(items[i]);
        out.PushWord("|");
        done := done + [Bare(items[i])];
        i := i + 1;
        if i < |items| {
          Steps(base, "(", done, items[i]);
          out.PushWhite(' ');
          WriteNodeIndented(cfg, items[i], out, bodyIndent + 2, bodyIndent + 2);
          done := done + [items[i]];
          i := i + 1;
        } else {
          GapAfter(base, done);
          out.PushWhite(' ');
        }
      } else {
        Steps(base, "(", done, items[i]);
        WriteNodeIndented(cfg, items[i], out, bodyIndent, bodyIndent);
        done := done + [items[i]];
        i := i + 1;
      }
    }
    assert done + [] == done;
  }

  /** `Variants`, one variant at a time. */
  lemma VariantsNext(done: seq<Node>, items: seq<Node>, i: nat)
    requires i < |items|
    ensures done + Variants(items, i) ==
            if !IsPipe(items[i]) then done + [items[i]] + Variants(items, i + 1)
            else if i + 1 == |items| then done + [Bare(items[i])] + Variants(items, i + 1)
            else done + [Bare(items[i])] + [items[i + 1]] + Variants(items, i + 2)
  {
    VariantsStep(items, i);
    hide Variants, IsPipe, Bare;
    if !IsPipe(items[i]) || i + 1 == |items| {
      var first := if IsPipe(items[i]) then Bare(items[i]) else items[i];
      assert done + ([first] + Variants(items, i + 1)) == done + [first] + Variants(items, i + 1);
    } else {
      var a, b, rest := Bare(items[i]), items[i + 1], Variants(items, i + 2);
      assert done + ([a, b] + rest) == done + [a] + [b] + rest;
    }
  }

  lemma VariantsStep(items: seq<Node>, i: nat)
    requires i < |items|
    ensures Variants(items, i) ==
            if !IsPipe(items[i]) then [items[i]] + Variants(items, i + 1)
            else if i + 1 == |items| then [Bare(items[i])] + Variants(items, i + 1)
            else [Bare(items[i]), items[i + 1]] + Variants(items, i + 2)
  {
    hide IsPipe, Bare;
    if i + 1 == |items| {
      assert Variants(items, i + 1) == [];
    }
  }

  /** One item on each line, maps with aligned columns. */
  method WriteRecords(cfg: PrintConfig, items: seq<Node>, out: Buffer, bodyIndent: nat, ghost base: seq<Tok>)
    requires |items| >= 2 && AllPrintable(cfg.alignColumns, items)
    requires Holds(out, Opened(base, "(", items[..2]))
    modifies out
    ensures Holds(out, Opened(base, "(", items[..2] + Records(items, 2)))
    decreases items, 1
  {
    hide FlatNode, FlatItems, Printable, Renders, Opened, FlatLen, Spaced, Measurable;
    ghost var done := items[..2];
    for i := 2 to |items|
      invariant done != [] && done + Records(items, i) == items[..2] + Records(items, 2)
      invariant Holds(out, Opened(base, "(", done))
    {
      BreakBefore(items[i], out, bodyIndent, false);
      if items[i].kind.Map? {
        Steps(base, "(", done, Bare(items[i]));
        MapToken(cfg.alignColumns, items[i]);
        WriteMapAlwaysAligned(cfg, items[i].kind.pairs, out, bodyIndent);
        done := done + [Bare(items[i])];
      } else {
        Steps(base, "(", done, items[i]);
        WriteNodeIndented(cfg, items[i], out, bodyIndent, bodyIndent);
        done := done + [items[i]];
      }
    }
    assert done + [] == done;
  }

  lemma GapAfter(base: seq<Tok>, items: seq<Node>)
    requires items != []
    ensures Spaced(Opened(base, "(", items)) == Opened(base, "(", items) + [Gap]
  {
    hide FlatNode;
  }

  lemma {:induction false} NoPipeNoDangling(items: seq<Node>, i: nat)
    requires i <= |items| && !HasElse(items[i..])
    ensures !DanglingPipe(items, i)
    decreases |items| - i
  {
    if i < |items| {
      assert items[i] in items[i..];
      assert forall x <- items[i + 1..] :: x in items[i..];
      NoPipeNoDangling(items, i + 1);
    }
  }

  lemma PipeToken(n: Node)
    requires IsPipe(n)
    ensures FlatNode(Bare(n)) == [Word("|")]
  {
    BareTokens(n);
  }

  lemma MapToken(align: bool, n: Node)
    requires Printable(align, n) && n.kind.Map?
    ensures FlatNode(Bare(n)) == Delimited("{", FlatPairs(n.kind.pairs), "}")
    ensures AllPrintableEntries(align, n.kind.pairs)
  {
    BareTokens(n);
  }

  lemma BareTokens(n: Node)
    ensures FlatNode(Bare(n)) == FlatKind(n.kind)
  {
    hide FlatKind;
    assert LeadComments([]) == [];
  }

  method WriteLetForm(cfg: PrintConfig, items: seq<Node>, out: Buffer, indent: nat)
    requires out.Valid() && items != [] && Indentable(items) && EngineOf(items).Let? &&
             AllPrintable(cfg.alignColumns, items)
    modifies out
    ensures Holds(out, Closed(old(out.toks), "(", Kept(cfg.alignColumns, items), ")"))
    decreases items, 2
  {
    hide FlatNode, FlatItems, Printable, Renders, Opened, FlatLen, Spaced, Measurable;
    hide EngineOf, Regrouped;
    ghost var base := out.toks;
    ghost var kept := Kept(cfg.alignColumns, items);
    var bodyIndent := indent + cfg.indentWidth;
    WriteHead(cfg, items, out, indent + 1, indent + 1);
    if |items| > 1 {
      var bindCol := indent + 1 + Capped(items[0], 40) + 1;
      StepsAt(base, "(", kept, 1);
      assert kept[..1] == items[..1];
      out.PushWhite(' ');
      WriteBindings(cfg, items, out, bodyIndent, bindCol);
    }
    assert items[Min(2, |items|)..] == kept[Min(2, |items|)..];
    for i := Min(2, |items|) to |items|
      invariant Holds(out, Opened(base, "(", kept[..i]))
    {
      StepsAt(base, "(", kept, i);
      BreakBefore(items[i], out, bodyIndent, false);
      WriteNodeIndented(cfg, items[i], out, bodyIndent, bodyIndent);
    }
    assert kept[..|items|] == kept;
    out.PushWord(")");
  }

  /** The binding vector of a `let` or `loop`. */
  method WriteBindings(cfg: PrintConfig, items: seq<Node>, out: Buffer, bodyIndent: nat, bindCol: nat)
    requires out.Valid() && |items| >= 2 && Indentable(items) && EngineOf(items).Let?
    requires AllPrintable(cfg.alignColumns, items)
    modifies out
    ensures Holds(out, old(out.toks) + FlatNode(Kept(cfg.alignColumns, items)[1]))
    decreases items, 1
  {
    hide FlatNode, FlatItems, Printable, Renders, EngineOf, Regrouped, HasElse, Delimited;
    var node := items[1];
    if node.kind.Vector? && HasElse(node.kind.items) {
      VectorToken(cfg.alignColumns, node, Regrouped(node.kind.items, 0));
      WriteLetElseBindings(cfg, node.kind.items, out, bindCol);
    } else if node.kind.Vector? && |node.kind.items| >= 4 && |node.kind.items| % 2 == 0 && cfg.alignColumns {
      VectorToken(cfg.alignColumns, node, node.kind.items);
      assert Complete(node.kind.items) == node.kind.items;
      WriteBindingVectorAligned(cfg, node.kind.items, out, bindCol);
    } else {
      WriteNodeIndented(cfg, node, out, bodyIndent, bindCol);
    }
  }

  lemma VectorToken(align: bool, n: Node, items: seq<Node>)
    requires Printable(align, n) && n.kind.Vector?
    ensures FlatNode(Bare(n).(kind := Vector(items))) == Delimited("[", FlatItems(items), "]")
    ensures AllPrintable(align, n.kind.items)
  {
    hide FlatItems;
    BareTokens(n.(kind := Vector(items)));
  }

  /** A let-else group, as positions in the binding vector. */
  datatype Group = Group(pat: nat, val: nat, fallback: Option<nat>)

  predicate GroupIn(g: Group, bindings: seq<Node>) {
    g.pat < |bindings| && g.val == g.pat + 1 < |bindings| &&
    (g.fallback.Some? ==> g.fallback.value == g.val + 2 < |bindings| && IsPipe(bindings[g.val + 1]))
  }

  function GroupNodes(bindings: seq<Node>, g: Group): (nodes: seq<Node>)
    requires GroupIn(g, bindings)
    ensures nodes != []
  {
    bindings[g.pat..g.pat + 2] + if g.fallback.Some? then [Bare(bindings[g.val + 1]), bindings[g.val + 2]] else []
  }

  function GroupsNodes(bindings: seq<Node>, groups: seq<Group>): seq<Node>
    requires forall i | 0 <= i < |groups| :: GroupIn(groups[i], bindings)
  {
    if groups == [] then []
    else GroupsNodes(bindings, groups[..|groups| - 1]) + GroupNodes(bindings, groups[|groups| - 1])
  }

  /** `collect_let_binding_groups`. */
  method CollectLetBindingGroups(bindings: seq<Node>) returns (groups: seq<Group>)
    ensures forall i | 0 <= i < |groups| :: GroupIn(groups[i], bindings)
    ensures GroupsNodes(bindings, groups) == Regrouped(bindings, 0)
  {
    hide IsMut, IsPipe, GroupNodes;
    groups := [];
    var i := 0;
    assert forall r: seq<Node> :: [] + r == r;
    while i < |bindings|
      invariant i <= |bindings|
      invariant forall j | 0 <= j < |groups| :: GroupIn(groups[j], bindings)
      invariant GroupsNodes(bindings, groups) + Regrouped(bindings, i) == Regrouped(bindings, 0)
      decreases |bindings| - i
    {
      hide GroupsNodes;
      ghost var was := i;
      if IsMut(bindings[i]) {
        i := i + 1;
      }
      if i + 1 >= |bindings| {
        break;
      }
      var pat, val := i, i + 1;
      i := i + 2;
      var fallback := None;
      if i < |bindings| && IsPipe(bindings[i]) {
        i := i + 1;
        if i < |bindings| {
          fallback := Some(i);
          i := i + 1;
        }
      }
      var g := Group(pat, val, fallback);
      RegroupStep(bindings, was, i, g);
      GroupsSnoc(bindings, groups, g, Regrouped(bindings, i));
      groups := groups + [g];
    }
  }

  /** One turn of the loop: from position `was`, the group `g` is followed by the groups from `next` on. */
  lemma RegroupStep(bindings: seq<Node>, was: nat, next: nat, g: Group)
    requires was < |bindings| && g.pat == (if IsMut(bindings[was]) then was + 1 else was)
    requires GroupIn(g, bindings) && next <= |bindings|
    requires match g.fallback
             case Some(f) => next == f + 1
             case None =>
               if g.pat + 2 < |bindings| && IsPipe(bindings[g.pat + 2]) then next == g.pat + 3 == |bindings|
               else next == g.pat + 2
    ensures Regrouped(bindings, was) == GroupNodes(bindings, g) + Regrouped(bindings, next)
  {
  }

  lemma GroupsSnoc(bindings: seq<Node>, groups: seq<Group>, g: Group, rest: seq<Node>)
    requires GroupIn(g, bindings) && forall i | 0 <= i < |groups| :: GroupIn(groups[i], bindings)
    ensures GroupsNodes(bindings, groups + [g]) == GroupsNodes(bindings, groups) + GroupNodes(bindings, g)
    ensures GroupsNodes(bindings, groups + [g]) + rest
         == GroupsNodes(bindings, groups) + (GroupNodes(bindings, g) + rest)
  {
    hide GroupNodes;
    assert (groups + [g])[..|groups|] == groups;
  }

  /** `write_let_else_bindings`. */
  method WriteLetElseBindings(cfg: PrintConfig, bindings: seq<Node>, out: Buffer, startCol: nat)
    requires out.Valid() && AllPrintable(cfg.alignColumns, bindings)
    modifies out
    ensures Holds(out, old(out.toks) + Delimited("[", FlatItems(Regrouped(bindings, 0)), "]"))
    decreases bindings, 2
  {
    hide FlatNode, FlatItems, Printable, Renders, Opened, FlatLen, Spaced, Measurable;
    ghost var base := out.toks;
    var groups := CollectLetBindingGroups(bindings);
    var width := PatternWidth(bindings, groups);
    var align := startCol + 1 + width + 1 <= cfg.maxLineWidth / 2;
    EmptyOpened(base, "[");
    out.PushWord("[");
    for i := 0 to |groups|
      invariant Holds(out, Opened(base, "[", GroupsNodes(bindings, groups[..i])))
      invariant i > 0 <==> GroupsNodes(bindings, groups[..i]) != []
    {
      assert groups[..i + 1] == groups[..i] + [groups[i]];
      GroupsSnoc(bindings, groups[..i], groups[i], []);
      hide GroupsNodes, GroupNodes, PatternWidth, Regrouped;
      WriteGroup(cfg, bindings, groups[i], i == 0, out, startCol, align, width, base,
        GroupsNodes(bindings, groups[..i]));
    }
    assert groups[..|groups|] == groups;
    out.PushWord("]");
    DelimitedIsClosed(base, "[", Regrouped(bindings, 0), "]");
  }

  /** One group, on a new line unless it is the first. */
  method WriteGroup(cfg: PrintConfig, bindings: seq<Node>, g: Group, first: bool, out: Buffer, startCol: nat,
                    align: bool, width: nat, ghost base: seq<Tok>, ghost before: seq<Node>)
    requires AllPrintable(cfg.alignColumns, bindings) && GroupIn(g, bindings) && (first <==> before == [])
    requires Holds(out, Opened(base, "[", before))
    modifies out
    ensures Holds(out, Opened(base, "[", before + GroupNodes(bindings, g)))
    decreases bindings, 1
  {
    hide FlatNode, FlatItems, Printable, Renders, Opened, FlatLen, Spaced, Measurable, GroupNodes;
    Steps(base, "[", before, bindings[g.pat]);
    if !first {
      out.NewLine(startCol + 1);
    }
    WriteNodeIndented(cfg, bindings[g.pat], out, startCol + 1, startCol + 1);
    assert before == [] ==> before + [bindings[g.pat]] == [bindings[g.pat]];
    WriteGroupRest(cfg, bindings, g, out, startCol, align, width, base, before);
  }

  /** The value and fallback of a group whose pattern has just been written. */
  method WriteGroupRest(cfg: PrintConfig, bindings: seq<Node>, g: Group, out: Buffer, startCol: nat, align: bool,
                        width: nat, ghost base: seq<Tok>, ghost before: seq<Node>)
    requires AllPrintable(cfg.alignColumns, bindings) && GroupIn(g, bindings)
    requires Holds(out, Opened(base, "[", before + [bindings[g.pat]]))
    modifies out
    ensures Holds(out, Opened(base, "[", before + GroupNodes(bindings, g)))
    decreases bindings, 0
  {
    hide FlatNode, FlatItems, Printable, Renders, Opened, FlatLen, Spaced, Measurable;
    ghost var written := before + [bindings[g.pat]];
    var patLen := Capped(bindings[g.pat], 40);
    Steps(base, "[", written, bindings[g.val]);
    out.PadGap(if align && patLen < width then width - patLen else 0);
    WriteNodeIndented(cfg, bindings[g.val], out, startCol + 1, startCol + 1 + (if align then width else patLen) + 1);
    written := written + [bindings[g.val]];
    match g.fallback {
      case Some(fb) =>
        WriteFallback(bindings, g, out, base, written);
        assert written + [Bare(bindings[g.val + 1]), bindings[fb]] == before + GroupNodes(bindings, g);
      case None =>
        assert written == before + GroupNodes(bindings, g);
    }
  }

  /** ` | fallback`, always flat. */
  method WriteFallback(bindings: seq<Node>, g: Group, out: Buffer, ghost base: seq<Tok>, ghost before: seq<Node>)
    requires GroupIn(g, bindings) && g.fallback.Some? && before != []
    requires Holds(out, Opened(base, "[", before))
    modifies out
    ensures Holds(out, Opened(base, "[", before + [Bare(bindings[g.val + 1]), bindings[g.fallback.value]]))
  {
    hide FlatNode, FlatItems, Printable, Renders, Opened, FlatLen, Spaced, Measurable;
    ghost var pipe := Bare(bindings[g.val + 1]);
    var fallback := bindings[g.fallback.value];
    Steps(base, "[", before, pipe);
    PipeToken(bindings[g.val + 1]);
    out.PushWhite(' ');
    out.PushWord("|");
    Steps(base, "[", before + [pipe], fallback);
    out.PushWhite(' ');
    WriteNode(fallback, out);
    assert before + [pipe] + [fallback] == before + [pipe, fallback];
  }

  lemma EmptyOpened(base: seq<Tok>, open: string)
    ensures Opened(base, open, []) == base + [Word(open)]
  {
  }

  /** The complete name/value pairs of a binding vector. */
  function Complete(bindings: seq<Node>): seq<Node> {
    bindings[..2 * (|bindings| / 2)]
  }

  /** `write_binding_vector_aligned`: a last name without a value is dropped. */
  method WriteBindingVectorAligned(cfg: PrintConfig, bindings: seq<Node>, out: Buffer, startCol: nat)
    requires out.Valid() && AllPrintable(cfg.alignColumns, bindings)
    modifies out
    ensures Holds(out, old(out.toks) + Delimited("[", FlatItems(Complete(bindings)), "]"))
    decreases bindings, 1
  {
    hide FlatNode, FlatItems, Printable, Renders, Opened, FlatLen, Spaced, Measurable, BindingWidth;
    ghost var base := out.toks;
    var count := |bindings| / 2;
    var width := BindingWidth(bindings);
    var align := startCol + 1 + width + 1 <= cfg.maxLineWidth / 2;
    EmptyOpened(base, "[");
    out.PushWord("[");
    assert bindings[..0] == [];
    for j := 0 to count
      invariant Holds(out, Opened(base, "[", bindings[..2 * j]))
    {
      WriteBinding(cfg, bindings, 2 * j, out, startCol, align, width, base);
    }
    out.PushWord("]");
    DelimitedIsClosed(base, "[", Complete(bindings), "]");
  }

  method WriteBinding(cfg: PrintConfig, bindings: seq<Node>, k: nat, out: Buffer, startCol: nat, align: bool,
                      width: nat, ghost base: seq<Tok>)
    requires k + 1 < |bindings| && AllPrintable(cfg.alignColumns, bindings)
    requires Holds(out, Opened(base, "[", bindings[..k]))
    modifies out
    ensures Holds(out, Opened(base, "[", bindings[..k + 2]))
    decreases bindings, 0
  {
    hide FlatNode, FlatItems, Printable, Renders, Opened, FlatLen, Spaced, Measurable;
    StepsAt(base, "[", bindings, k);
    StepsAt(base, "[", bindings, k + 1);
    if k > 0 {
      BreakBefore(bindings[k], out, startCol + 1, false);
    }
    var nameLen := CappedKind(bindings[k], 40);
    WriteNodeIndented(cfg, bindings[k], out, startCol + 1, startCol + 1);
    out.PadGap(if align && nameLen < width then width - nameLen else 0);
    WriteNodeIndented(cfg, bindings[k + 1], out, startCol + 1, startCol + 1 + (if align then width else nameLen) + 1);
  }

  /** `write_collection_indented`, with the hiccup layout for vectors headed by a keyword. */
  method WriteCollectionIndented(cfg: PrintConfig, items: seq<Node>, out: Buffer, column: nat, open: string,
                                 close: string)
    requires out.Valid() && AllPrintable(cfg.alignColumns, items)
    modifies out
    ensures Holds(out, old(out.toks) + Delimited(open, FlatItems(items), close))
    decreases items, 2
  {
    hide FlatNode, FlatItems, Printable, Renders, Opened, FlatLen, Spaced, Measurable;
    ghost var base := out.toks;
    var flat := FlatLenSeq(items);
    if flat != MAX && SatAdd(column, flat) <= cfg.maxLineWidth {
      WriteDelimited(open, items, close, out);
      return;
    }
    DelimitedIsClosed(base, open, items, close);
    EmptyOpened(base, open);
    assert items[..0] == [];
    var first := 0;
    if open == "[" && items != [] && items[0].kind.Atomic? && items[0].kind.atom.Keyword? {
      var count := if |items| >= 2 && items[1].kind.Map? then 2 else 1;
      if count < |items| {
        out.PushWord(open);
        assert base + [Word(open)] + FlatItems(items[..count]) == Opened(base, open, items[..count]) by {
          OpenedIs(base, open, items[..count]);
        }
        WriteSep(items[..count], out);
        WriteLines(cfg, items, count, out, column + 1, open, base);
        out.PushWord(close);
        return;
      }
    }
    out.PushWord(open);
    WriteLines(cfg, items, 0, out, column + 1, open, base);
    out.PushWord(close);
  }

  lemma OpenedIs(base: seq<Tok>, open: string, items: seq<Node>)
    ensures Opened(base, open, items) == base + [Word(open)] + FlatItems(items)
  {
  }

  /** Every item from `first` on, each but the very first on a new line at `at`. */
  method WriteLines(cfg: PrintConfig, items: seq<Node>, first: nat, out: Buffer, at: nat, open: string,
                    ghost base: seq<Tok>)
    requires first <= |items| && AllPrintable(cfg.alignColumns, items)
    requires Holds(out, Opened(base, open, items[..first]))
    modifies out
    ensures Holds(out, Opened(base, open, items))
    decreases items, 0
  {
    hide FlatNode, FlatItems, Printable, Renders, Opened, FlatLen, Spaced, Measurable;
    for i := first to |items|
      invariant Holds(out, Opened(base, open, items[..i]))
    {
      StepsAt(base, open, items, i);
      if i > 0 {
        out.NewLine(at);
      }
      WriteNodeIndented(cfg, items[i], out, at, at);
    }
    assert items[..|items|] == items;
  }

  predicate AllPrintableEntries(align: bool, pairs: seq<Entry>)
    ensures AllPrintableEntries(align, pairs) ==>
              forall i | 0 <= i < |pairs| :: PrintableEntry(align, pairs[i]) && MeasurableEntry(pairs[i])
    decreases pairs
  {
    forall i | 0 <= i < |pairs| :: PrintableEntry(align, pairs[i])
  }

  /** `write_map_indented`: a single pair may stay flat. */
  method WriteMapIndented(cfg: PrintConfig, pairs: seq<Entry>, out: Buffer, column: nat)
    requires out.Valid() && AllPrintableEntries(cfg.alignColumns, pairs)
    modifies out
    ensures Holds(out, old(out.toks) + Delimited("{", FlatPairs(pairs), "}"))
    decreases pairs, 2
  {
    hide FlatNode, FlatItems, FlatEntry, FlatPairs, Printable, Renders, FlatLen, FlatLenKind, Spaced, Measurable,
      Delimited;
    if |pairs| == 1 {
      var flat := FlatLenKind(Map(pairs));
      if flat != MAX && SatAdd(column, flat) <= cfg.maxLineWidth {
        OnePair(out.toks, pairs);
        out.PushWord("{");
        WriteEntry(pairs[0], out);
        out.PushWord("}");
        return;
      }
    }
    WriteMapAlwaysAligned(cfg, pairs, out, column);
  }

  lemma OnePair(base: seq<Tok>, pairs: seq<Entry>)
    requires |pairs| == 1
    ensures base + [Word("{")] + FlatEntry(pairs[0]) + [Word("}")] == base + Delimited("{", FlatPairs(pairs), "}")
  {
    hide FlatEntry;
    assert FlatPairs(pairs) == FlatEntry(pairs[0]);
  }

  /** `write_map_always_aligned`: one pair per line. */
  method WriteMapAlwaysAligned(cfg: PrintConfig, pairs: seq<Entry>, out: Buffer, indent: nat)
    requires out.Valid() && AllPrintableEntries(cfg.alignColumns, pairs)
    modifies out
    ensures Holds(out, old(out.toks) + Delimited("{", FlatPairs(pairs), "}"))
    decreases pairs, 1
  {
    hide FlatNode, FlatItems, Printable, Renders, FlatLen, Measurable, FlatEntry, KeyWidth, Spaced;
    ghost var base := out.toks;
    out.PushWord("{");
    var pairIndent := indent + 1;
    var align := cfg.alignColumns && |pairs| >= 2;
    var width := if align then KeyWidth(pairs) else 0;
    var pad := align && pairIndent + width < cfg.maxLineWidth;
    ghost var start := out.toks;
    EmptyItems();
    assert start + FlatPairs(pairs[..0]) == start;
    for i := 0 to |pairs|
      invariant Holds(out, start + FlatPairs(pairs[..i]))
    {
      hide FlatPairs;
      PairSteps(start, pairs, i);
      if i > 0 {
        out.NewLine(pairIndent);
      }
      WriteAlignedEntry(cfg, pairs[i], out, pairIndent, pad, width);
    }
    assert pairs[..|pairs|] == pairs;
    out.PushWord("}");
  }

  lemma PairSteps(base: seq<Tok>, pairs: seq<Entry>, k: nat)
    requires k < |pairs|
    ensures k == 0 ==> base + FlatEntry(pairs[0]) == base + FlatPairs(pairs[..1])
    ensures k > 0 ==> Spaced(base + FlatPairs(pairs[..k])) + FlatEntry(pairs[k]) == base + FlatPairs(pairs[..k + 1])
  {
    hide FlatNode, FlatEntry, FlatPairs;
    FlatPairsNext(pairs, k);
    if k > 0 {
      assert Spaced(base + FlatPairs(pairs[..k])) == base + FlatPairs(pairs[..k]) + [Gap];
    }
  }

  method WriteAlignedEntry(cfg: PrintConfig, e: Entry, out: Buffer, at: nat, pad: bool, width: nat)
    requires out.Valid() && PrintableEntry(cfg.alignColumns, e)
    modifies out
    ensures Holds(out, old(out.toks) + FlatEntry(e))
    decreases e
  {
    hide FlatNode, Printable, Renders, FlatLen, Measurable;
    var keyLen := Capped(e.key, 40);
    WriteNodeIndented(cfg, e.key, out, at, at);
    out.PadGap(if pad && keyLen < width then width - keyLen else 0);
    WriteNodeIndented(cfg, e.val, out, at, at + (if pad then width else keyLen) + 1);
  }

  /** `xs` is `ys` with some nodes, and the comments of some others, left out. */
  predicate Thinned(xs: seq<Node>, ys: seq<Node>)
    decreases |ys|
  {
    xs == [] ||
    (ys != [] &&
     (((xs[0] == ys[0] || xs[0] == Bare(ys[0])) && Thinned(xs[1..], ys[1..])) || Thinned(xs, ys[1..])))
  }

  lemma ThinnedNext(x: Node, xs: seq<Node>, ys: seq<Node>)
    requires ys != [] && (x == ys[0] || x == Bare(ys[0])) && Thinned(xs, ys[1..])
    ensures Thinned([x] + xs, ys)
  {
    assert ([x] + xs)[1..] == xs;
  }

  lemma {:induction false} ThinnedItself(ys: seq<Node>)
    ensures Thinned(ys, ys)
  {
    if ys != [] { ThinnedItself(ys[1..]); }
  }

  /** Grouping drops nodes and comments of `|`, and neither invents nor reorders anything. */
  lemma {:induction false} RegroupedThinned(bindings: seq<Node>, i: nat)
    requires i <= |bindings|
    ensures Thinned(Regrouped(bindings, i), bindings[i..])
    decreases |bindings| - i
  {
    hide IsMut, IsPipe, Thinned, Regrouped;
    RegroupedAt(bindings, i);
    if i < |bindings| {
      var p := if IsMut(bindings[i]) then i + 1 else i;
      if p + 1 < |bindings| {
        var k := if p + 3 < |bindings| && IsPipe(bindings[p + 2]) then 4 else 2;
        var dangling := k == 2 && p + 2 < |bindings| && IsPipe(bindings[p + 2]);
        if !dangling { RegroupedThinned(bindings, p + k); } else { ThinnedNone(bindings[p + 2..]); }
        var rest := if dangling then [] else Regrouped(bindings, p + k);
        GroupThinned(bindings, p, k, rest);
        if p > i { ThinnedSkip(GroupAt(bindings, p, k) + rest, bindings[i..]); }
      } else {
        ThinnedNone(bindings[i..]);
      }
    } else {
      ThinnedNone([]);
    }
  }

  function GroupAt(bindings: seq<Node>, p: nat, k: nat): seq<Node>
    requires (k == 2 || k == 4) && p + k <= |bindings|
  {
    if k == 4 then [bindings[p], bindings[p + 1], Bare(bindings[p + 2]), bindings[p + 3]]
    else [bindings[p], bindings[p + 1]]
  }

  /** `Regrouped`, one group at a time. */
  lemma RegroupedAt(bindings: seq<Node>, i: nat)
    requires i <= |bindings|
    ensures Regrouped(bindings, i) ==
            if i == |bindings| then []
            else
              var p := if IsMut(bindings[i]) then i + 1 else i;
              if p + 1 >= |bindings| then []
              else
                var k := if p + 3 < |bindings| && IsPipe(bindings[p + 2]) then 4 else 2;
                var dangling := k == 2 && p + 2 < |bindings| && IsPipe(bindings[p + 2]);
                GroupAt(bindings, p, k) + if dangling then [] else Regrouped(bindings, p + k)
  {
    hide IsMut, IsPipe;
    if i < |bindings| {
      var p := if IsMut(bindings[i]) then i + 1 else i;
      if p + 1 < |bindings| { assert bindings[p..p + 2] == GroupAt(bindings, p, 2) == GroupAt(bindings, p, 2) + []; }
    }
  }

  lemma GroupThinned(bindings: seq<Node>, p: nat, k: nat, rest: seq<Node>)
    requires (k == 2 || k == 4) && p + k <= |bindings| && Thinned(rest, bindings[p + k..])
    ensures Thinned(GroupAt(bindings, p, k) + rest, bindings[p..])
  {
    hide Thinned;
    if k == 4 {
      ThinnedNext(bindings[p + 3], rest, bindings[p + 3..]);
      ThinnedNext(Bare(bindings[p + 2]), [bindings[p + 3]] + rest, bindings[p + 2..]);
      var two := [Bare(bindings[p + 2]), bindings[p + 3]] + rest;
      assert [Bare(bindings[p + 2])] + ([bindings[p + 3]] + rest) == two;
      ThinnedNext(bindings[p + 1], two, bindings[p + 1..]);
      ThinnedNext(bindings[p], [bindings[p + 1]] + two, bindings[p..]);
      assert [bindings[p]] + ([bindings[p + 1]] + two) == GroupAt(bindings, p, 4) + rest;
    } else {
      ThinnedNext(bindings[p + 1], rest, bindings[p + 1..]);
      ThinnedNext(bindings[p], [bindings[p + 1]] + rest, bindings[p..]);
      assert [bindings[p]] + ([bindings[p + 1]] + rest) == GroupAt(bindings, p, 2) + rest;
    }
  }

  lemma ThinnedNone(ys: seq<Node>)
    ensures Thinned([], ys)
  {
  }

  lemma ThinnedSkip(xs: seq<Node>, ys: seq<Node>)
    requires ys != [] && Thinned(xs, ys[1..])
    ensures Thinned(xs, ys)
  {
  }

  lemma {:induction false} ThinnedLength(xs: seq<Node>, ys: seq<Node>)
    requires Thinned(xs, ys)
    ensures |xs| <= |ys|
    decreases |ys|
  {
    if xs != [] {
      if (xs[0] == ys[0] || xs[0] == Bare(ys[0])) && Thinned(xs[1..], ys[1..]) {
        ThinnedLength(xs[1..], ys[1..]);
      } else {
        ThinnedLength(xs, ys[1..]);
      }
    }
  }

  /** Grouping changes nothing exactly when the vector is well grouped. */
  lemma {:induction false} RegroupedAll(bindings: seq<Node>, i: nat)
    requires i <= |bindings|
    ensures WellGrouped(bindings, i) <==> Regrouped(bindings, i) == bindings[i..]
    decreases |bindings| - i
  {
    hide IsMut, IsPipe, Thinned, Regrouped;
    RegroupedAt(bindings, i);
    if i < |bindings| {
      var p := if IsMut(bindings[i]) then i + 1 else i;
      if p + 1 < |bindings| {
        var k := if p + 3 < |bindings| && IsPipe(bindings[p + 2]) then 4 else 2;
        RegroupedThinned(bindings, p + k);
        ThinnedLength(Regrouped(bindings, p + k), bindings[p + k..]);
        RegroupedAll(bindings, p + k);
        if p == i { SameGroup(bindings, i, k, Regrouped(bindings, i + k)); }
      }
    }
  }

  lemma SameGroup(bindings: seq<Node>, i: nat, k: nat, rest: seq<Node>)
    requires (k == 2 || k == 4) && i + k <= |bindings|
    ensures GroupAt(bindings, i, k) + rest == bindings[i..] <==>
            (k == 4 ==> IsBare(bindings[i + 2])) && rest == bindings[i + k..]
  {
    var all := GroupAt(bindings, i, k) + rest;
    assert all[k..] == rest && bindings[i..][k..] == bindings[i + k..];
    assert bindings[i..] == bindings[i..i + k] + bindings[i + k..];
    if k == 4 {
      assert all[2] == Bare(bindings[i + 2]) && bindings[i..][2] == bindings[i + 2];
      assert IsBare(bindings[i + 2]) ==> GroupAt(bindings, i, 4) == bindings[i..i + 4];
    } else {
      assert GroupAt(bindings, i, 2) == bindings[i..i + 2];
    }
  }

  lemma {:induction false} VariantsAll(items: seq<Node>, i: nat)
    requires i <= |items|
    ensures |Variants(items, i)| == |items| - i
    ensures BareVariants(items, i) <==> Variants(items, i) == items[i..]
    ensures Thinned(Variants(items, i), items[i..])
    decreases |items| - i
  {
    hide IsPipe, Thinned;
    if i < |items| { VariantsStep(items, i); }
    hide Variants;
    if i == |items| {
      VariantsEnd(items);
      ThinnedNone([]);
    } else {
      var first := if IsPipe(items[i]) then Bare(items[i]) else items[i];
      if IsPipe(items[i]) && i + 1 < |items| {
        VariantsAll(items, i + 2);
        var tail := [items[i + 1]] + Variants(items, i + 2);
        ThinnedNext(items[i + 1], Variants(items, i + 2), items[i + 1..]);
        ThinnedNext(first, tail, items[i..]);
        assert Variants(items, i) == [first] + tail;
        SameTail(items[i + 1], Variants(items, i + 2), items[i + 1..]);
        SameTail(first, tail, items[i..]);
      } else {
        VariantsAll(items, i + 1);
        ThinnedNext(first, Variants(items, i + 1), items[i..]);
        assert Variants(items, i) == [first] + Variants(items, i + 1);
        SameTail(first, Variants(items, i + 1), items[i..]);
      }
    }
  }

  lemma VariantsEnd(items: seq<Node>)
    ensures Variants(items, |items|) == []
  {
  }

  lemma SameTail(x: Node, xs: seq<Node>, ys: seq<Node>)
    requires ys != []
    ensures [x] + xs == ys <==> x == ys[0] && xs == ys[1..]
  {
    assert ys == [ys[0]] + ys[1..];
    assert ([x] + xs)[0] == x && ([x] + xs)[1..] == xs;
  }

  lemma {:induction false} RecordsAll(items: seq<Node>, i: nat)
    requires i <= |items|
    ensures |Records(items, i)| == |items| - i
    ensures (forall k | i <= k < |items| && items[k].kind.Map? :: IsBare(items[k])) <==> Records(items, i) == items[i..]
    ensures Thinned(Records(items, i), items[i..])
    decreases |items| - i
  {
    hide Thinned;
    if i == |items| {
      ThinnedNone([]);
    } else {
      RecordsAll(items, i + 1);
      var first := if items[i].kind.Map? then Bare(items[i]) else items[i];
      ThinnedNext(first, Records(items, i + 1), items[i..]);
      SameTail(first, Records(items, i + 1), items[i..]);
    }
  }

  /** The engines keep every item exactly when the form is paired. */
  lemma KeptAll(align: bool, items: seq<Node>)
    requires items != [] && Indentable(items)
    ensures Kept(align, items) == items && !EndsInPipe(items) <==> Paired(align, items)
  {
    hide EngineOf, Variants, Records, Regrouped, WellGrouped, BareVariants, Thinned, DanglingPipe;
    match EngineOf(items)
    case Let => KeptLet(align, items);
    case Deftype =>
      VariantsAll(items, 2);
      RecordsAll(items, 2);
      assert items == items[..2] + items[2..];
      assert Kept(align, items) == items <==> DeftypeBody(items) == items[2..] by {
        assert Kept(align, items)[2..] == DeftypeBody(items);
      }
    case _ =>
  }

  lemma KeptLet(align: bool, items: seq<Node>)
    requires items != [] && EngineOf(items).Let? && Sliceable(items)
    ensures Kept(align, items) == items <==> Paired(align, items)
  {
    hide EngineOf, Regrouped, WellGrouped, HasElse;
    if UsesLetElse(items) {
      var b := items[1].kind.items;
      RegroupedAll(b, 0);
      assert b[0..] == b;
      assert Kept(align, items)[1] == Bare(items[1]).(kind := Vector(Regrouped(b, 0)));
    } else if UsesColumns(align, items) {
      assert Kept(align, items)[1] == Bare(items[1]);
    }
  }
}
