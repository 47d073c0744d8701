/**
 Printing and reading (crates/nexl-ast/src/printer.rs, crates/nexl-reader/src): whatever layout the printer chooses, the
 text of a readable tree is read back as that tree. `Readable` says what must not occur in it; the counterexamples show
 trees that the code does not read back.
*/
module ReadBack {
  import opened Basics
  import opened Ast
  import opened FlatPrinter
  import opened OutputBuffer
  import opened AtomReading
  import L = LayoutTheorems
  import P = LayoutPrinter
  import R = Reader

  // ---------------------------------------------------------------------------------------------
  // Readable trees
  // ---------------------------------------------------------------------------------------------

  predicate IsBare(n: Node) {
    n.leading == [] && n.trailing == None
  }

  predicate IsQuestion(n: Node) {
    IsSymbol(n, "?")
  }

  /** The text shows where the node ends: a bracket, a quote, a number or a brace. */
  predicate EndsClosed(n: Node)
    decreases n
  {
    match n.kind
    case Atomic(a) => Closed(a)
    case List(items) => !IsPostfixQuestion(items)
    case Prefixed(_, inner) => EndsClosed(inner)
    case _ => true
  }

  /** The text starts with `@`. */
  predicate StartsDeref(n: Node)
    decreases n
  {
    match n.kind
    case Prefixed(p, _) => p == Deref
    case List(items) => IsPostfixQuestion(items) && StartsDeref(items[1])
    case _ => false
  }

  /**
   Every token can be told from its neighbours: atoms are readable, `expr?` puts its mark after something closed, and no
   `~` stands before `@`. There are no comments and no strings with line breaks.
  */
  predicate Spellable(h: R.Host, n: Node)
    decreases n
  {
    IsBare(n) && SpellableKind(h, n.kind)
  }

  predicate SpellableKind(h: R.Host, k: Kind)
    decreases k
  {
    match k
    case Atomic(a) => ReadableAtom(h, a) && !(a.Str? && '\n' in a.s)
    case List(items) =>
      (IsPostfixQuestion(items) ==> IsBare(items[0]) && EndsClosed(items[1])) && forall x <- items :: Spellable(h, x)
    case Vector(items) => forall x <- items :: Spellable(h, x)
    case Set(items) => forall x <- items :: Spellable(h, x)
    case Map(pairs) => forall e <- pairs :: Spellable(h, e.key) && Spellable(h, e.val)
    case Prefixed(p, inner) => Spellable(h, inner) && (p == Unquote ==> !StartsDeref(inner))
  }

  predicate IsDiscard(n: Node) {
    n.kind.Prefixed? && n.kind.prefix == Discard
  }

  /** The first lexeme is the symbol `?`. */
  predicate StartsQuestion(n: Node)
    decreases n
  {
    match n.kind
    case Atomic(a) => IsQuestion(n)
    case List(items) => IsPostfixQuestion(items) && StartsQuestion(items[1])
    case _ => false
  }

  /** Operands of reader marks: no `expr?` among them. */
  predicate PlacedOperand(n: Node)
    decreases n, 0
  {
    match n.kind
    case Atomic(_) => true
    case List(items) => !IsPostfixQuestion(items) && PlacedItems(items)
    case Vector(items) => PlacedItems(items)
    case Set(items) => PlacedItems(items)
    case Map(pairs) => PlacedPairs(pairs)
    case Prefixed(_, inner) => PlacedOperand(inner)
  }

  /** What `?` or `#_` may stand beside: not `#_` itself. */
  predicate PlacedTarget(n: Node)
    decreases n, 1
  {
    if n.kind.List? && IsPostfixQuestion(n.kind.items) then PlacedTarget(n.kind.items[1])
    else PlacedOperand(n) && !IsDiscard(n)
  }

  /** Items of collections. */
  predicate PlacedItem(n: Node)
    decreases n, 2
  {
    if IsDiscard(n) then PlacedTarget(n.kind.inner) else PlacedTarget(n)
  }

  /** No item but the first is the symbol `?`, which would be taken for the mark of the item before it. */
  predicate PlacedItems(items: seq<Node>)
    decreases items
  {
    forall i | 0 <= i < |items| :: PlacedItem(items[i]) && (i > 0 ==> !StartsQuestion(items[i]))
  }

  predicate PlacedPairs(pairs: seq<Entry>)
    decreases pairs
  {
    forall i | 0 <= i < |pairs| :: PlacedEntry(pairs[i]) && (i > 0 ==> !StartsQuestion(pairs[i].key))
  }

  predicate PlacedEntry(e: Entry)
    decreases e
  {
    PlacedItem(e.key) && PlacedItem(e.val) && !StartsQuestion(e.val)
  }

  /** What reading gives back. */
  predicate Readable(h: R.Host, n: Node) {
    Spellable(h, n) && PlacedItem(n)
  }

  // ---------------------------------------------------------------------------------------------
  // The lexemes of a tree
  // ---------------------------------------------------------------------------------------------

  function Spelled(n: Node): (ls: seq<R.Lexeme>)
    ensures ls != []
    decreases n
  {
    match n.kind
    case Atomic(a) => [R.Leaf(a)]
    case List(items) =>
      if IsPostfixQuestion(items) then Spelled(items[1]) + [R.QUESTION]
      else [R.Open(R.Round)] + SpelledAll(items) + [R.Close(R.Round)]
    case Vector(items) => [R.Open(R.Square)] + SpelledAll(items) + [R.Close(R.Square)]
    case Set(items) => [R.Open(R.HashCurly)] + SpelledAll(items) + [R.Close(R.Curly)]
    case Map(pairs) => [R.Open(R.Curly)] + SpelledPairs(pairs) + [R.Close(R.Curly)]
    case Prefixed(p, inner) => [R.Mark(p)] + Spelled(inner)
  }

  function SpelledAll(items: seq<Node>): seq<R.Lexeme>
    decreases items
  {
    if items == [] then [] else Spelled(items[0]) + SpelledAll(items[1..])
  }

  function SpelledPairs(pairs: seq<Entry>): seq<R.Lexeme>
    decreases pairs
  {
    if pairs == [] then [] else SpelledEntry(pairs[0]) + SpelledPairs(pairs[1..])
  }

  function SpelledEntry(e: Entry): seq<R.Lexeme>
    decreases e
  {
    Spelled(e.key) + Spelled(e.val)
  }

  // ---------------------------------------------------------------------------------------------
  // Reading lexemes
  // ---------------------------------------------------------------------------------------------

  lemma {:induction false} FirstLexeme(n: Node)
    ensures !Spelled(n)[0].Close?
    ensures Spelled(n)[0] == R.QUESTION <==> StartsQuestion(n)
    decreases n
  {
    match n.kind
    case List(items) => if IsPostfixQuestion(items) { FirstLexeme(items[1]); }
    case _ =>
  }

  lemma {:induction false} TargetFirst(n: Node)
    requires PlacedTarget(n)
    ensures Spelled(n)[0] != R.Mark(Discard)
    decreases n
  {
    if n.kind.List? && IsPostfixQuestion(n.kind.items) { TargetFirst(n.kind.items[1]); }
  }

  /** The nodes that reading rebuilds have no comments. */
  predicate BareTree(n: Node)
    decreases n
  {
    IsBare(n) && BareKind(n.kind)
  }

  predicate BareKind(k: Kind)
    decreases k
  {
    match k
    case Atomic(_) => true
    case List(items) => forall x <- items :: BareTree(x)
    case Vector(items) => forall x <- items :: BareTree(x)
    case Set(items) => forall x <- items :: BareTree(x)
    case Map(pairs) => forall e <- pairs :: BareTree(e.key) && BareTree(e.val)
    case Prefixed(_, inner) => BareTree(inner)
  }

  lemma {:induction false} OperandReads(n: Node, rest: seq<R.Lexeme>)
    requires PlacedOperand(n) && BareTree(n)
    ensures var ls := Spelled(n) + rest; !R.AtEnd(ls) && R.Dispatch(ls) == Some(R.Parsed(n, rest))
    decreases n, 0
  {
    hide R.Items, PlacedItems, PlacedPairs, SpelledAll, SpelledPairs;
    FirstLexeme(n);
    var ls := Spelled(n) + rest;
    assert ls[0] == Spelled(n)[0];
    match n.kind
    case Atomic(a) => assert ls[1..] == rest;
    case List(items) =>
      ItemsRead(items, [R.Close(R.Round)] + rest);
      CollectionReads(R.Round, R.Round, SpelledAll(items), items, rest);
    case Vector(items) =>
      ItemsRead(items, [R.Close(R.Square)] + rest);
      CollectionReads(R.Square, R.Square, SpelledAll(items), items, rest);
    case Set(items) =>
      ItemsRead(items, [R.Close(R.Curly)] + rest);
      CollectionReads(R.HashCurly, R.Curly, SpelledAll(items), items, rest);
    case Map(pairs) =>
      PairsRead(pairs, [R.Close(R.Curly)] + rest);
      Pairing(pairs);
      CollectionReads(R.Curly, R.Curly, SpelledPairs(pairs), Unpaired(pairs), rest);
    case Prefixed(p, inner) =>
      OperandReads(inner, rest);
      assert ls[1..] == Spelled(inner) + rest;
  }

  /** A bracketed collection whose items are read. */
  lemma CollectionReads(b: R.Bracket, close: R.Bracket, body: seq<R.Lexeme>, items: seq<Node>, rest: seq<R.Lexeme>)
    requires close == if b == R.HashCurly then R.Curly else b
    requires R.Items(body + ([R.Close(close)] + rest)) == Some(R.Parsed(items, [R.Close(close)] + rest))
    ensures var ls := [R.Open(b)] + body + [R.Close(close)] + rest;
            !R.AtEnd(ls) && R.Dispatch(ls) ==
            match R.Collection(b, items)
            case None => None
            case Some(k) => Some(R.Parsed(R.Plain(k), rest))
  {
    hide R.Items, R.Collection;
    var ls := [R.Open(b)] + body + [R.Close(close)] + rest;
    var tail := [R.Close(close)] + rest;
    assert ls[1..] == body + tail && tail[1..] == rest;
  }

  function Unpaired(pairs: seq<Entry>): seq<Node> {
    if pairs == [] then [] else [pairs[0].key, pairs[0].val] + Unpaired(pairs[1..])
  }

  lemma {:induction false} Pairing(pairs: seq<Entry>)
    ensures |Unpaired(pairs)| == 2 * |pairs| && R.PairUp(Unpaired(pairs)) == pairs
  {
    if pairs != [] {
      Pairing(pairs[1..]);
      assert Unpaired(pairs)[2..] == Unpaired(pairs[1..]);
      assert [pairs[0]] + pairs[1..] == pairs;
    }
  }

  predicate NoMark(rest: seq<R.Lexeme>) {
    rest == [] || rest[0] != R.QUESTION
  }

  /** The form that comes first in a target's lexemes, with the marks after it. */
  lemma {:induction false} TargetReads(n: Node, rest: seq<R.Lexeme>)
    requires PlacedTarget(n) && BareTree(n)
    ensures var ls := Spelled(n) + rest;
            !R.AtEnd(ls) && R.Dispatch(ls).Some? &&
            R.Postfix(R.Dispatch(ls).value.value, R.Dispatch(ls).value.rest) == R.Postfix(n, rest)
    decreases n, 1
  {
    hide R.Dispatch, PlacedOperand;
    if n.kind.List? && IsPostfixQuestion(n.kind.items) {
      var inner, tail := n.kind.items[1], [R.QUESTION] + rest;
      TargetReads(inner, tail);
      assert Spelled(n) + rest == Spelled(inner) + tail;
      assert tail[1..] == rest;
      QuestionNode(n);
    } else {
      OperandReads(n, rest);
    }
  }

  /** `expr?` as the reader builds it. */
  lemma QuestionNode(n: Node)
    requires BareTree(n) && n.kind.List? && IsPostfixQuestion(n.kind.items)
    ensures n == R.Plain(List([R.Plain(Atomic(Symbol(None, "?"))), n.kind.items[1]]))
  {
    var items := n.kind.items;
    assert BareTree(items[0]);
    assert items == [items[0], items[1]];
  }

  lemma {:induction false} ItemReads(n: Node, rest: seq<R.Lexeme>)
    requires PlacedItem(n) && BareTree(n) && NoMark(rest)
    ensures var ls := Spelled(n) + rest; !R.AtEnd(ls) && R.Forms(ls) == Some(R.Parsed([n], rest))
    decreases n, 2
  {
    hide R.Dispatch, PlacedTarget;
    var ls := Spelled(n) + rest;
    assert ls[0] == Spelled(n)[0];
    FirstLexeme(n);
    if IsDiscard(n) {
      var inner := n.kind.inner;
      TargetReads(inner, rest);
      TargetFirst(inner);
      assert ls[1..] == Spelled(inner) + rest;
      OneDiscard(ls);
      DiscardReads(inner, ls[1..], rest);
    } else {
      TargetReads(n, rest);
      TargetFirst(n);
      NoDiscard(ls);
    }
  }

  lemma OneDiscard(ls: seq<R.Lexeme>)
    requires |ls| > 1 && ls[0] == R.Mark(Discard) && ls[1] != R.Mark(Discard)
    ensures R.Discards(ls) == 1 && R.Forms(ls) == R.Discarded(1, ls[1..])
  {
    assert ls[1..][0] == ls[1];
    assert R.Discards(ls[1..]) == 0;
  }

  lemma NoDiscard(ls: seq<R.Lexeme>)
    requires !R.AtEnd(ls) && ls[0] != R.Mark(Discard)
    ensures R.Discards(ls) == 0
  {
  }

  lemma DiscardReads(inner: Node, ls: seq<R.Lexeme>, rest: seq<R.Lexeme>)
    requires !R.AtEnd(ls) && R.Dispatch(ls).Some?
    requires R.Postfix(R.Dispatch(ls).value.value, R.Dispatch(ls).value.rest) == R.Parsed(inner, rest)
    ensures R.Discarded(1, ls) == Some(R.Parsed([R.Plain(Prefixed(Discard, inner))], rest))
  {
    hide R.Dispatch, R.Postfix;
    assert R.Discarded(0, rest) == Some(R.Parsed([], rest));
    assert [R.Plain(Prefixed(Discard, inner))] + [] == [R.Plain(Prefixed(Discard, inner))];
  }

  lemma {:induction false} ItemsRead(items: seq<Node>, rest: seq<R.Lexeme>)
    requires PlacedItems(items) && (forall x <- items :: BareTree(x)) && R.AtEnd(rest)
    ensures R.Items(SpelledAll(items) + rest) == Some(R.Parsed(items, rest))
    decreases items, 3
  {
    hide R.Forms, PlacedItem, BareTree, Spelled, R.Items;
    if items == [] {
      assert SpelledAll(items) + rest == rest;
      NothingRead(rest);
    } else {
      var more := SpelledAll(items[1..]) + rest;
      assert SpelledAll(items) + rest == Spelled(items[0]) + more;
      NextUnmarked(items, rest);
      hide SpelledAll;
      ItemReads(items[0], more);
      TailPlaced(items);
      ItemsRead(items[1..], rest);
      ItemsStep(Spelled(items[0]) + more, items[0], more, items[1..], rest);
      assert [items[0]] + items[1..] == items;
    }
  }

  lemma NextUnmarked(items: seq<Node>, rest: seq<R.Lexeme>)
    requires items != [] && PlacedItems(items) && R.AtEnd(rest)
    ensures NoMark(SpelledAll(items[1..]) + rest)
  {
    hide PlacedItem, Spelled, StartsQuestion;
    if |items| > 1 {
      FirstLexeme(items[1]);
      assert (SpelledAll(items[1..]) + rest)[0] == Spelled(items[1])[0];
    }
  }

  lemma NothingRead(rest: seq<R.Lexeme>)
    requires R.AtEnd(rest)
    ensures R.Items(rest) == Some(R.Parsed([], rest))
  {
  }

  lemma TailPlaced(items: seq<Node>)
    requires PlacedItems(items) && items != []
    ensures PlacedItems(items[1..])
  {
    hide PlacedItem, StartsQuestion;
  }

  lemma ItemsStep(ls: seq<R.Lexeme>, n: Node, more: seq<R.Lexeme>, others: seq<Node>, rest: seq<R.Lexeme>)
    requires !R.AtEnd(ls) && R.Forms(ls) == Some(R.Parsed([n], more)) && R.Items(more) == Some(R.Parsed(others, rest))
    ensures R.Items(ls) == Some(R.Parsed([n] + others, rest))
  {
    hide R.Forms;
  }

  lemma {:induction false} PairsRead(pairs: seq<Entry>, rest: seq<R.Lexeme>)
    requires PlacedPairs(pairs) && (forall e <- pairs :: BareTree(e.key) && BareTree(e.val)) && R.AtEnd(rest)
    ensures R.Items(SpelledPairs(pairs) + rest) == Some(R.Parsed(Unpaired(pairs), rest))
    decreases pairs, 3
  {
    hide R.Forms, PlacedEntry, BareTree, Spelled, StartsQuestion, R.Items;
    if pairs == [] {
      assert SpelledPairs(pairs) + rest == rest;
      NothingLeft(rest);
    } else {
      var e, more := pairs[0], SpelledPairs(pairs[1..]) + rest;
      assert e in pairs;
      PairsMark(pairs[1..], rest);
      TailPaired(pairs);
      PairsRead(pairs[1..], rest);
      EntryReads(e, more, Unpaired(pairs[1..]), rest);
      FirstPair(pairs, rest);
    }
  }

  lemma Regroup<T>(a: seq<T>, b: seq<T>, c: seq<T>, d: seq<T>)
    ensures a + b + c + d == a + (b + (c + d))
  {
  }

  lemma {:induction false} FirstPair(pairs: seq<Entry>, rest: seq<R.Lexeme>)
    requires pairs != []
    ensures SpelledPairs(pairs) + rest ==
            Spelled(pairs[0].key) + (Spelled(pairs[0].val) + (SpelledPairs(pairs[1..]) + rest))
    ensures Unpaired(pairs) == [pairs[0].key] + ([pairs[0].val] + Unpaired(pairs[1..]))
  {
    hide Spelled;
    var tail := SpelledPairs(pairs[1..]);
    assert SpelledPairs(pairs) == Spelled(pairs[0].key) + Spelled(pairs[0].val) + tail;
    hide SpelledPairs;
    Regroup(Spelled(pairs[0].key), Spelled(pairs[0].val), tail, rest);
  }

  lemma {:induction false} PairsMark(pairs: seq<Entry>, rest: seq<R.Lexeme>)
    requires (pairs != [] ==> !StartsQuestion(pairs[0].key)) && R.AtEnd(rest)
    ensures NoMark(SpelledPairs(pairs) + rest)
  {
    hide Spelled, StartsQuestion;
    if pairs == [] {
      assert SpelledPairs(pairs) + rest == rest;
    } else {
      FirstLexeme(pairs[0].key);
      assert SpelledPairs(pairs) == Spelled(pairs[0].key) + Spelled(pairs[0].val) + SpelledPairs(pairs[1..]);
      assert (SpelledPairs(pairs) + rest)[0] == Spelled(pairs[0].key)[0];
    }
  }

  lemma NothingLeft(rest: seq<R.Lexeme>)
    requires R.AtEnd(rest)
    ensures R.Items(rest) == Some(R.Parsed([], rest))
  {
  }

  lemma TailPaired(pairs: seq<Entry>)
    requires PlacedPairs(pairs) && pairs != []
    ensures PlacedPairs(pairs[1..])
  {
    hide PlacedEntry, StartsQuestion;
  }

  lemma {:induction false} EntryReads(e: Entry, more: seq<R.Lexeme>, others: seq<Node>, rest: seq<R.Lexeme>)
    requires PlacedEntry(e) && BareTree(e.key) && BareTree(e.val) && NoMark(more)
    requires R.Items(more) == Some(R.Parsed(others, rest))
    ensures R.Items(Spelled(e.key) + (Spelled(e.val) + more)) == Some(R.Parsed([e.key] + ([e.val] + others), rest))
    decreases e, 3
  {
    hide R.Forms, R.Items, PlacedItem, BareTree, Spelled;
    var tail := Spelled(e.val) + more;
    FirstLexeme(e.val);
    assert tail[0] == Spelled(e.val)[0];
    ItemReads(e.val, more);
    ItemsStep(tail, e.val, more, others, rest);
    ItemReads(e.key, tail);
    ItemsStep(Spelled(e.key) + tail, e.key, tail, [e.val] + others, rest);
  }

  // ---------------------------------------------------------------------------------------------
  // Renderings and their parts
  // ---------------------------------------------------------------------------------------------

  lemma {:induction false} JoinConcat(a: seq<string>, b: seq<string>)
    ensures Join(a + b) == Join(a) + Join(b)
  {
    if b == [] {
      assert a + b == a;
    } else {
      assert (a + b)[..|a + b| - 1] == a + b[..|b| - 1];
      JoinConcat(a, b[..|b| - 1]);
    }
  }

  lemma SplitRendering(a: seq<Tok>, b: seq<Tok>, text: string) returns (x: string, y: string)
    requires L.IsRendering(a + b, text)
    ensures text == x + y && L.IsRendering(a, x) && L.IsRendering(b, y)
  {
    var parts :| Renders(a + b, parts, text);
    CutRendering(a, b, parts, text);
    assert |parts| == |a| + |b|;
    x, y := Join(parts[..|a|]), Join(parts[|a|..]);
  }

  lemma CutRendering(a: seq<Tok>, b: seq<Tok>, parts: seq<string>, text: string)
    requires Renders(a + b, parts, text)
    ensures var x, y := parts[..|a|], parts[|a|..];
            text == Join(x) + Join(y) && Renders(a, x, Join(x)) && Renders(b, y, Join(y))
  {
    hide Spells, Join;
    var x, y, all := parts[..|a|], parts[|a|..], a + b;
    assert parts == x + y;
    JoinConcat(x, y);
    forall i | 0 <= i < |a| ensures Spells(a[i], x[i]) { assert Spells(all[i], parts[i]); }
    forall i | 0 <= i < |b| ensures Spells(b[i], y[i]) { assert Spells(all[|a| + i], parts[|a| + i]); }
  }

  lemma OnePart(t: Tok, text: string)
    requires L.IsRendering([t], text)
    ensures Spells(t, text)
  {
    hide Spells;
    var parts :| Renders([t], parts, text);
    assert parts == [parts[0]] && parts[..0] == [] && Spells([t][0], parts[0]);
    assert Join(parts) == parts[0];
  }

  lemma NoParts(text: string)
    requires L.IsRendering([], text)
    ensures text == ""
  {
  }

  /** A word, and what is rendered after it. */
  lemma WordFirst(word: string, ts: seq<Tok>, text: string) returns (y: string)
    requires L.IsRendering([Word(word)] + ts, text)
    ensures text == word + y && L.IsRendering(ts, y)
  {
    hide L.IsRendering;
    var x;
    x, y := SplitRendering([Word(word)], ts, text);
    OnePart(Word(word), x);
  }

  /** A delimited body. */
  lemma DelimitedParts(open: string, body: seq<Tok>, close: string, text: string) returns (y: string)
    requires L.IsRendering(Delimited(open, body, close), text)
    ensures text == open + (y + close) && L.IsRendering(body, y)
  {
    hide L.IsRendering;
    assert Delimited(open, body, close) == [Word(open)] + (body + [Word(close)]);
    var tail := WordFirst(open, body + [Word(close)], text);
    var z;
    y, z := SplitRendering(body, [Word(close)], tail);
    OnePart(Word(close), z);
  }

  /** Two parts with a gap between them. */
  lemma GapParts(a: seq<Tok>, b: seq<Tok>, text: string) returns (x: string, g: string, y: string)
    requires L.IsRendering(a + [Gap] + b, text)
    ensures text == x + (g + y) && IsBlank(g) && L.IsRendering(a, x) && L.IsRendering(b, y)
  {
    hide L.IsRendering;
    assert a + [Gap] + b == a + ([Gap] + b);
    var tail;
    x, tail := SplitRendering(a, [Gap] + b, text);
    g, y := SplitRendering([Gap], b, tail);
    OnePart(Gap, g);
  }

  // ---------------------------------------------------------------------------------------------
  // Lexing renderings
  // ---------------------------------------------------------------------------------------------

  lemma BeforeTwice(a: seq<R.Lexeme>, b: seq<R.Lexeme>, after: Option<seq<R.Lexeme>>)
    ensures R.Before(a, R.Before(b, after)) == R.Before(a + b, after)
    ensures R.Before([], after) == after
  {
    if after.Some? {
      assert a + (b + after.value) == a + b + after.value;
      assert [] + after.value == after.value;
    }
  }

  lemma LexStep(h: R.Host, t: string, l: R.Lexeme, rest: string)
    requires NoBlank(t) && R.LexOne(h, t + rest) == R.Just(l, rest)
    ensures R.Lexemes(h, t + rest) == R.Before([l], R.Lexemes(h, rest))
  {
    hide R.LexOne;
    assert (t + rest)[0] == t[0];
  }

  lemma {:induction false} SkipBlank(h: R.Host, g: string, rest: string)
    requires IsBlank(g)
    ensures R.Lexemes(h, g + rest) == R.Lexemes(h, rest)
  {
    hide R.LexOne;
    var s := g + rest;
    assert s[0] == g[0] && s[1..] == g[1..] + rest;
    if |g| == 1 {
      assert g[1..] + rest == rest;
    } else {
      SkipBlank(h, g[1..], rest);
    }
  }

  lemma BracketLex(h: R.Host, rest: string)
    ensures R.LexOne(h, "(" + rest) == R.Just(R.Open(R.Round), rest)
    ensures R.LexOne(h, ")" + rest) == R.Just(R.Close(R.Round), rest)
    ensures R.LexOne(h, "[" + rest) == R.Just(R.Open(R.Square), rest)
    ensures R.LexOne(h, "]" + rest) == R.Just(R.Close(R.Square), rest)
    ensures R.LexOne(h, "{" + rest) == R.Just(R.Open(R.Curly), rest)
    ensures R.LexOne(h, "}" + rest) == R.Just(R.Close(R.Curly), rest)
  {
    hide R.LexOne;
    OneBracket(h, "(", R.Open(R.Round), rest);
    OneBracket(h, ")", R.Close(R.Round), rest);
    OneBracket(h, "[", R.Open(R.Square), rest);
    OneBracket(h, "]", R.Close(R.Square), rest);
    OneBracket(h, "{", R.Open(R.Curly), rest);
    OneBracket(h, "}", R.Close(R.Curly), rest);
  }

  lemma OneBracket(h: R.Host, text: string, l: R.Lexeme, rest: string)
    requires match l
             case Open(Round) => text == "("
             case Open(Square) => text == "["
             case Open(Curly) => text == "{"
             case Close(Round) => text == ")"
             case Close(Square) => text == "]"
             case Close(Curly) => text == "}"
             case _ => false
    ensures R.LexOne(h, text + rest) == R.Just(l, rest)
  {
    hide R.HashOf, R.NumberOf, R.CharOf, R.StringOf, R.SymbolOf, R.KeywordOf, R.RawString, R.StartsWith;
    assert (text + rest)[1..] == rest && (text + rest)[0] == text[0];
  }

  lemma SetLex(h: R.Host, rest: string)
    ensures R.LexOne(h, "#" + ("{" + rest)) == R.Just(R.Open(R.HashCurly), rest)
  {
    hide R.LexOne;
    HashLex(h, "{" + rest);
    assert ("{" + rest)[1..] == rest;
  }

  lemma MarkLex(h: R.Host, p: Prefix, rest: string)
    requires p == Unquote ==> !R.Starts(rest, '@')
    ensures NoBlank(PrefixText(p)) && R.LexOne(h, PrefixText(p) + rest) == R.Just(R.Mark(p), rest)
    ensures R.Starts(PrefixText(p), '@') <==> p == Deref
  {
    hide R.NumberOf, R.CharOf, R.StringOf, R.SymbolOf, R.KeywordOf, R.PathOf;
    var s := PrefixText(p) + rest;
    if p == Discard || p == UnquoteSplice {
      assert s[1..][0] == s[1] && s[1..][1..] == rest;
    } else {
      assert s[1..] == rest;
    }
  }

  predicate MayFollow(n: Node, rest: string) {
    Stops(rest) || (EndsClosed(n) && R.Starts(rest, '?'))
  }

  lemma AtomSpelled(h: R.Host, a: Atom, text: string, rest: string)
    requires ReadableAtom(h, a) && !(a.Str? && '\n' in a.s) && L.IsRendering(FlatKind(Atomic(a)), text) &&
             Follows(a, rest)
    ensures R.Lexemes(h, text + rest) == R.Before([R.Leaf(a)], R.Lexemes(h, rest)) && !R.Starts(text, '@')
  {
    hide R.LexOne, AtomText, ReadableAtom, L.IsRendering;
    OnePart(AtomTok(a), text);
    AtomLexes(h, a, rest);
    LexStep(h, text, R.Leaf(a), rest);
    NotDeref(h, text + rest, a, rest);
    assert (text + rest)[0] == text[0];
  }

  lemma NotDeref(h: R.Host, s: string, a: Atom, rest: string)
    requires s != [] && R.LexOne(h, s) == R.Just(R.Leaf(a), rest)
    ensures s[0] != '@'
  {
    hide R.NumberOf, R.CharOf, R.StringOf, R.SymbolOf, R.KeywordOf, R.PathOf, R.HashOf;
  }

  /** The lexemes of any rendering of a tree are those of the tree. */
  lemma {:induction false} NodeLexes(h: R.Host, n: Node, text: string, rest: string)
    requires Spellable(h, n) && L.IsRendering(FlatNode(n), text) && MayFollow(n, rest)
    ensures R.Lexemes(h, text + rest) == R.Before(Spelled(n), R.Lexemes(h, rest))
    ensures !StartsDeref(n) ==> !R.Starts(text, '@')
    decreases n, 0
  {
    hide R.LexOne, R.Lexemes, L.IsRendering, FlatKind, FlatItems, FlatPairs, SpelledAll, SpelledPairs, ReadableAtom;
    FlatBare(n);
    match n.kind
    case Atomic(a) => AtomSpelled(h, a, text, rest);
    case List(items) =>
      if IsPostfixQuestion(items) { QuestionLexes(h, items, text, rest); } else { ItemsLex(h, items, "(", text, rest); }
    case Vector(items) => ItemsLex(h, items, "[", text, rest);
    case Set(items) => ItemsLex(h, items, "#{", text, rest);
    case Map(pairs) => PairsLex(h, pairs, text, rest);
    case Prefixed(p, inner) => PrefixLexes(h, p, inner, text, rest);
  }

  lemma {:induction false} PrefixLexes(h: R.Host, p: Prefix, inner: Node, text: string, rest: string)
    requires SpellableKind(h, Prefixed(p, inner)) && MayFollow(inner, rest)
    requires L.IsRendering(FlatKind(Prefixed(p, inner)), text)
    ensures R.Lexemes(h, text + rest) == R.Before([R.Mark(p)] + Spelled(inner), R.Lexemes(h, rest))
    ensures p != Deref ==> !R.Starts(text, '@')
    decreases inner, 1
  {
    hide R.LexOne, R.Lexemes, L.IsRendering, FlatKind, Spelled, Spellable, FlatNode;
    PrefixTokens(p, inner);
    var y := WordFirst(PrefixText(p), FlatNode(inner), text);
    NodeLexes(h, inner, y, rest);
    if p == Unquote { NoDerefAfter(y, rest); }
    MarkLex(h, p, y + rest);
    assert text + rest == PrefixText(p) + (y + rest);
    LexStep(h, PrefixText(p), R.Mark(p), y + rest);
    BeforeTwice([R.Mark(p)], Spelled(inner), R.Lexemes(h, rest));
    assert text[0] == PrefixText(p)[0];
  }

  lemma NoDerefAfter(y: string, rest: string)
    requires !R.Starts(y, '@') && (Stops(rest) || R.Starts(rest, '?'))
    ensures !R.Starts(y + rest, '@')
  {
    if y == [] { assert y + rest == rest; } else { assert (y + rest)[0] == y[0]; }
  }

  lemma FlatBare(n: Node)
    requires IsBare(n)
    ensures FlatNode(n) == FlatKind(n.kind)
  {
    hide FlatKind;
    assert LeadComments([]) == [];
  }

  lemma PrefixTokens(p: Prefix, inner: Node)
    ensures FlatKind(Prefixed(p, inner)) == [Word(PrefixText(p))] + FlatNode(inner)
  {
  }

  /** `expr?`. */
  lemma {:induction false} QuestionLexes(h: R.Host, items: seq<Node>, text: string, rest: string)
    requires SpellableKind(h, List(items)) && IsPostfixQuestion(items) && Stops(rest)
    requires L.IsRendering(FlatKind(List(items)), text)
    ensures R.Lexemes(h, text + rest) == R.Before(Spelled(items[1]) + [R.QUESTION], R.Lexemes(h, rest))
    ensures !StartsDeref(items[1]) ==> !R.Starts(text, '@')
    decreases items
  {
    hide R.LexOne, R.Lexemes, L.IsRendering, FlatNode, ReadableAtom;
    var x, y := SplitRendering(FlatNode(items[1]), [Word("?")], text);
    OnePart(Word("?"), y);
    assert Spellable(h, items[1]);
    NodeLexes(h, items[1], x, "?" + rest);
    QuestionAtom(h);
    AtomLexes(h, Symbol(None, "?"), rest);
    LexStep(h, "?", R.QUESTION, rest);
    assert text + rest == x + ("?" + rest);
    BeforeTwice(Spelled(items[1]), [R.QUESTION], R.Lexemes(h, rest));
  }

  lemma QuestionAtom(h: R.Host)
    ensures ReadableAtom(h, Symbol(None, "?")) && AtomText(Symbol(None, "?")) == "?"
  {
  }

  /** The bracket that an opening text stands for, and its closing text. */
  function Bracketed(open: string): (R.Bracket, string, R.Bracket) {
    if open == "(" then (R.Round, ")", R.Round)
    else if open == "[" then (R.Square, "]", R.Square)
    else (R.HashCurly, "}", R.Curly)
  }

  function CollectionKind(open: string, items: seq<Node>): Kind {
    if open == "(" then List(items) else if open == "[" then Vector(items) else Set(items)
  }

  /** Lists, vectors and sets. */
  lemma {:induction false} ItemsLex(h: R.Host, items: seq<Node>, open: string, text: string, rest: string)
    requires (open == "(" && !IsPostfixQuestion(items)) || open == "[" || open == "#{"
    requires (forall x <- items :: Spellable(h, x)) && (Stops(rest) || R.Starts(rest, '?'))
    requires L.IsRendering(FlatKind(CollectionKind(open, items)), text)
    ensures var (b, _, c) := Bracketed(open);
            R.Lexemes(h, text + rest) == R.Before([R.Open(b)] + SpelledAll(items) + [R.Close(c)], R.Lexemes(h, rest))
    ensures !R.Starts(text, '@')
    decreases items, 2
  {
    hide R.LexOne, R.Lexemes, L.IsRendering, FlatItems, SpelledAll, Spellable;
    var (b, close, c) := Bracketed(open);
    var y := CollectionParts(open, items, text);
    var tail := close + rest;
    BodyLexes(h, items, y, tail);
    BracketLex(h, rest);
    LexStep(h, close, R.Close(c), rest);
    OpenLexes(h, open, y + tail);
    assert text + rest == open + (y + tail);
    LexStep(h, open, R.Open(b), y + tail);
    BeforeTwice(SpelledAll(items), [R.Close(c)], R.Lexemes(h, rest));
    BeforeTwice([R.Open(b)], SpelledAll(items) + [R.Close(c)], R.Lexemes(h, rest));
    assert [R.Open(b)] + (SpelledAll(items) + [R.Close(c)]) == [R.Open(b)] + SpelledAll(items) + [R.Close(c)];
    assert text[0] == open[0];
  }

  lemma OpenLexes(h: R.Host, open: string, rest: string)
    requires open == "(" || open == "[" || open == "#{"
    ensures R.LexOne(h, open + rest) == R.Just(R.Open(Bracketed(open).0), rest)
  {
    hide R.LexOne;
    BracketLex(h, rest);
    SetLex(h, rest);
    assert "#{" + rest == "#" + ("{" + rest);
  }

  lemma CollectionParts(open: string, items: seq<Node>, text: string) returns (y: string)
    requires (open == "(" && !IsPostfixQuestion(items)) || open == "[" || open == "#{"
    requires L.IsRendering(FlatKind(CollectionKind(open, items)), text)
    ensures text == open + (y + Bracketed(open).1) && L.IsRendering(FlatItems(items), y)
  {
    hide L.IsRendering, FlatItems;
    if open == "#{" {
      var tail := WordFirst("#", Delimited("{", FlatItems(items), "}"), text);
      y := DelimitedParts("{", FlatItems(items), "}", tail);
      assert text == "#{" + (y + "}");
    } else {
      y := DelimitedParts(open, FlatItems(items), Bracketed(open).1, text);
    }
  }

  lemma {:induction false} SpelledSnoc(items: seq<Node>)
    requires items != []
    ensures SpelledAll(items) == SpelledAll(items[..|items| - 1]) + Spelled(items[|items| - 1])
  {
    hide Spelled;
    if |items| > 1 {
      SpelledSnoc(items[1..]);
      assert items[1..][..|items| - 2] == items[..|items| - 1][1..];
    }
  }

  /** The items of a collection, up to what ends it. */
  lemma {:induction false} BodyLexes(h: R.Host, items: seq<Node>, text: string, rest: string)
    requires (forall x <- items :: Spellable(h, x)) && L.IsRendering(FlatItems(items), text) && Stops(rest)
    ensures R.Lexemes(h, text + rest) == R.Before(SpelledAll(items), R.Lexemes(h, rest))
    decreases items, 1
  {
    hide R.LexOne, R.Lexemes, L.IsRendering, FlatNode, SpelledAll, Spellable, Spelled;
    if items == [] {
      NoParts(text);
      assert text + rest == rest;
      NoneSpelled();
      BeforeTwice([], [], R.Lexemes(h, rest));
    } else {
      var init, last := items[..|items| - 1], items[|items| - 1];
      assert last in items && forall x <- init :: x in items;
      SpelledSnoc(items);
      if init == [] {
        NoneSpelled();
        assert SpelledAll(items) == Spelled(last);
        NodeLexes(h, last, text, rest);
      } else {
        var x, g, y := GapParts(FlatItems(init), FlatNode(last), text);
        NodeLexes(h, last, y, rest);
        SkipBlank(h, g, y + rest);
        assert Stops(g + (y + rest)) by { BlankStops(g, y + rest); }
        BodyLexes(h, init, x, g + (y + rest));
        assert text + rest == x + (g + (y + rest));
        BeforeTwice(SpelledAll(init), Spelled(last), R.Lexemes(h, rest));
      }
    }
  }

  lemma NoneSpelled()
    ensures SpelledAll([]) == [] && SpelledPairs([]) == []
  {
  }

  lemma BlankStops(g: string, rest: string)
    requires IsBlank(g)
    ensures Stops(g + rest)
  {
    assert (g + rest)[0] == g[0];
  }

  lemma {:induction false} PairsLex(h: R.Host, pairs: seq<Entry>, text: string, rest: string)
    requires (forall e <- pairs :: Spellable(h, e.key) && Spellable(h, e.val)) && (Stops(rest) || R.Starts(rest, '?'))
    requires L.IsRendering(FlatKind(Map(pairs)), text)
    ensures R.Lexemes(h, text + rest) ==
            R.Before([R.Open(R.Curly)] + SpelledPairs(pairs) + [R.Close(R.Curly)], R.Lexemes(h, rest))
    ensures !R.Starts(text, '@')
    decreases pairs, 2
  {
    hide R.LexOne, R.Lexemes, L.IsRendering, FlatPairs, SpelledPairs, Spellable;
    var y := DelimitedParts("{", FlatPairs(pairs), "}", text);
    var tail := "}" + rest;
    EntriesLex(h, pairs, y, tail);
    BracketLex(h, rest);
    LexStep(h, "}", R.Close(R.Curly), rest);
    BracketLex(h, y + tail);
    assert text + rest == "{" + (y + tail);
    LexStep(h, "{", R.Open(R.Curly), y + tail);
    BeforeTwice(SpelledPairs(pairs), [R.Close(R.Curly)], R.Lexemes(h, rest));
    BeforeTwice([R.Open(R.Curly)], SpelledPairs(pairs) + [R.Close(R.Curly)], R.Lexemes(h, rest));
    assert [R.Open(R.Curly)] + (SpelledPairs(pairs) + [R.Close(R.Curly)]) ==
           [R.Open(R.Curly)] + SpelledPairs(pairs) + [R.Close(R.Curly)];
    assert text[0] == '{';
  }

  lemma {:induction false} PairsSnoc(pairs: seq<Entry>)
    requires pairs != []
    ensures SpelledPairs(pairs) == SpelledPairs(pairs[..|pairs| - 1]) + SpelledEntry(pairs[|pairs| - 1])
  {
    hide SpelledEntry;
    if |pairs| > 1 {
      PairsSnoc(pairs[1..]);
      assert pairs[1..][..|pairs| - 2] == pairs[..|pairs| - 1][1..];
    }
  }

  lemma {:induction false} EntriesLex(h: R.Host, pairs: seq<Entry>, text: string, rest: string)
    requires (forall e <- pairs :: Spellable(h, e.key) && Spellable(h, e.val))
    requires L.IsRendering(FlatPairs(pairs), text) && Stops(rest)
    ensures R.Lexemes(h, text + rest) == R.Before(SpelledPairs(pairs), R.Lexemes(h, rest))
    decreases pairs, 1
  {
    hide R.LexOne, R.Lexemes, L.IsRendering, FlatEntry, SpelledPairs, Spellable, SpelledEntry;
    if pairs == [] {
      NoParts(text);
      assert text + rest == rest;
      NoneSpelled();
      BeforeTwice([], [], R.Lexemes(h, rest));
    } else {
      var init, last := pairs[..|pairs| - 1], pairs[|pairs| - 1];
      assert last in pairs && forall e <- init :: e in pairs;
      PairsSnoc(pairs);
      if init == [] {
        NoneSpelled();
        assert SpelledPairs(pairs) == SpelledEntry(last);
        EntryLexes(h, last, text, rest);
      } else {
        var x, g, y := GapParts(FlatPairs(init), FlatEntry(last), text);
        EntryLexes(h, last, y, rest);
        SkipBlank(h, g, y + rest);
        BlankStops(g, y + rest);
        EntriesLex(h, init, x, g + (y + rest));
        assert text + rest == x + (g + (y + rest));
        BeforeTwice(SpelledPairs(init), SpelledEntry(last), R.Lexemes(h, rest));
      }
    }
  }

  lemma {:induction false} EntryLexes(h: R.Host, e: Entry, text: string, rest: string)
    requires Spellable(h, e.key) && Spellable(h, e.val) && L.IsRendering(FlatEntry(e), text) && Stops(rest)
    ensures R.Lexemes(h, text + rest) == R.Before(SpelledEntry(e), R.Lexemes(h, rest))
    decreases e
  {
    hide R.LexOne, R.Lexemes, L.IsRendering, FlatNode, Spellable, Spelled;
    var x, g, y := GapParts(FlatNode(e.key), FlatNode(e.val), text);
    NodeLexes(h, e.val, y, rest);
    SkipBlank(h, g, y + rest);
    BlankStops(g, y + rest);
    NodeLexes(h, e.key, x, g + (y + rest));
    assert text + rest == x + (g + (y + rest));
    BeforeTwice(Spelled(e.key), Spelled(e.val), R.Lexemes(h, rest));
  }

  // ---------------------------------------------------------------------------------------------
  // Only placed trees are read back
  // ---------------------------------------------------------------------------------------------

  predicate Suffix(rest: seq<R.Lexeme>, ls: seq<R.Lexeme>) {
    |rest| <= |ls| && rest == ls[|ls| - |rest|..]
  }

  lemma SuffixOf(a: seq<R.Lexeme>, b: seq<R.Lexeme>, c: seq<R.Lexeme>)
    requires Suffix(a, b) && Suffix(b, c)
    ensures Suffix(a, c)
  {
  }

  /** Two readings in a row that keep all lexemes together keep their own. */
  lemma BothKept(ls: seq<R.Lexeme>, a: seq<R.Lexeme>, mid: seq<R.Lexeme>, b: seq<R.Lexeme>, rest: seq<R.Lexeme>)
    requires Suffix(mid, ls) && |mid| + |a| <= |ls| && |rest| + |b| <= |mid| && ls == a + b + rest
    ensures ls == a + mid && mid == b + rest
  {
    assert ls == a + (b + rest);
  }

  /** A form spelled with as many lexemes as it was read from starts with the same one. */
  ghost predicate SameStart(ls: seq<R.Lexeme>, n: Node, rest: seq<R.Lexeme>) {
    ls != [] && (|rest| + |Spelled(n)| == |ls| ==> Spelled(n)[0] == ls[0])
  }

  /**
   What a form read from lexemes amounts to: no more lexemes than it was read from, and placed if it keeps them all.
  */
  ghost predicate Honest(ls: seq<R.Lexeme>, spelled: seq<R.Lexeme>, rest: seq<R.Lexeme>, placed: bool) {
    Suffix(rest, ls) && |rest| + |spelled| <= |ls| && (ls == spelled + rest ==> placed)
  }

  lemma {:induction false} DispatchHonest(ls: seq<R.Lexeme>)
    requires !R.AtEnd(ls) && R.Dispatch(ls).Some?
    ensures var r := R.Dispatch(ls).value;
            Honest(ls, Spelled(r.value), r.rest, PlacedOperand(r.value)) && |r.rest| < |ls| &&
              SameStart(ls, r.value, r.rest) &&
            (IsDiscard(r.value) <==> ls[0] == R.Mark(Discard))
    decreases |ls|, 0
  {
    hide R.Items, PlacedItems, PlacedPairs, SpelledAll, SpelledPairs, Honest, SameStart;
    match ls[0]
    case Leaf(_) => LeafHonest(ls);
    case Mark(p) =>
      DispatchHonest(ls[1..]);
      MarkHonest(ls, p);
    case Open(b) =>
      ItemsHonest(ls[1..]);
      OpenHonest(ls, b);
  }

  lemma LeafHonest(ls: seq<R.Lexeme>)
    requires ls != [] && ls[0].Leaf?
    ensures var n := R.Plain(Atomic(ls[0].atom));
            Honest(ls, Spelled(n), ls[1..], PlacedOperand(n)) && SameStart(ls, n, ls[1..]) && !IsDiscard(n)
  {
  }

  lemma PrefixedNode(p: Prefix, inner: Node)
    ensures var n := R.Plain(Prefixed(p, inner));
            Spelled(n) == [R.Mark(p)] + Spelled(inner) && (PlacedOperand(n) <==> PlacedOperand(inner))
  {
  }

  lemma MarkDispatch(ls: seq<R.Lexeme>, p: Prefix)
    requires !R.AtEnd(ls) && ls[0] == R.Mark(p) && R.Dispatch(ls).Some?
    ensures !R.AtEnd(ls[1..]) && R.Dispatch(ls[1..]).Some?
    ensures var r, inner := R.Dispatch(ls).value, R.Dispatch(ls[1..]).value;
            r.value == R.Plain(Prefixed(p, inner.value)) && r.rest == inner.rest
  {
    hide R.Items;
  }

  lemma MarkHonest(ls: seq<R.Lexeme>, p: Prefix)
    requires !R.AtEnd(ls) && ls[0] == R.Mark(p) && R.Dispatch(ls).Some? && !R.AtEnd(ls[1..]) &&
             R.Dispatch(ls[1..]).Some?
    requires var r := R.Dispatch(ls[1..]).value; Honest(ls[1..], Spelled(r.value), r.rest, PlacedOperand(r.value))
    ensures var r := R.Dispatch(ls).value;
            Honest(ls, Spelled(r.value), r.rest, PlacedOperand(r.value)) && SameStart(ls, r.value, r.rest) &&
            r.value.kind == Prefixed(p, R.Dispatch(ls[1..]).value.value) && r.rest == R.Dispatch(ls[1..]).value.rest
  {
    hide R.Dispatch, Spelled, PlacedOperand;
    MarkDispatch(ls, p);
    var r := R.Dispatch(ls).value;
    var inner := r.value.kind.inner;
    PrefixedNode(p, inner);
    assert ([R.Mark(p)] + Spelled(inner) + r.rest)[1..] == Spelled(inner) + r.rest;
  }

  lemma OpenHonest(ls: seq<R.Lexeme>, b: R.Bracket)
    requires !R.AtEnd(ls) && ls[0] == R.Open(b) && R.Dispatch(ls).Some? && R.Items(ls[1..]).Some?
    requires var items := R.Items(ls[1..]).value;
             Honest(ls[1..], SpelledAll(items.value), items.rest, PlacedItems(items.value))
    ensures var r := R.Dispatch(ls).value;
            Honest(ls, Spelled(r.value), r.rest, PlacedOperand(r.value)) && |r.rest| < |ls| &&
              !r.value.kind.Prefixed? &&
            SameStart(ls, r.value, r.rest)
  {
    hide R.Items, PlacedItems, SpelledAll, PlacedOperand, Spelled, R.Collection;
    var items, r := R.Items(ls[1..]).value, R.Dispatch(ls).value;
    var body, close := SpelledAll(items.value), R.Close(if b == R.HashCurly then R.Curly else b);
    CollectionSpelled(b, items.value);
    assert items.rest == [close] + r.rest;
    assert ls == [R.Open(b)] + body + [close] + r.rest ==> ls[1..] == body + items.rest by {
      assert ([R.Open(b)] + body + [close] + r.rest)[1..] == body + ([close] + r.rest);
    }
  }

  lemma CollectionSpelled(b: R.Bracket, items: seq<Node>)
    requires R.Collection(b, items).Some?
    ensures var n, body := R.Plain(R.Collection(b, items).value), SpelledAll(items);
            var whole := [R.Open(b)] + body + [R.Close(if b == R.HashCurly then R.Curly else b)];
            !n.kind.Prefixed? && |Spelled(n)| <= |whole| && (|Spelled(n)| == |whole| ==> Spelled(n) == whole) &&
            (|Spelled(n)| == |whole| && PlacedItems(items) ==> PlacedOperand(n))
  {
    hide PlacedItems, PlacedPairs, SpelledAll, SpelledPairs, PlacedItem, StartsQuestion, R.PairUp;
    if b == R.Curly { PairedSpelling(items); }
    if b == R.Round && IsPostfixQuestion(items) { TwoSpelled(items); }
  }

  lemma TwoSpelled(items: seq<Node>)
    requires IsPostfixQuestion(items)
    ensures |SpelledAll(items)| == 1 + |Spelled(items[1])|
  {
    assert items[1..][0] == items[1] && items[1..][1..] == [];
    assert Spelled(items[0]) == [R.QUESTION];
    assert SpelledAll(items) == Spelled(items[0]) + SpelledAll(items[1..]);
    assert SpelledAll(items[1..]) == Spelled(items[1]) + SpelledAll([]);
  }

  lemma {:induction false} PairedSpelling(items: seq<Node>)
    requires |items| % 2 == 0
    ensures SpelledPairs(R.PairUp(items)) == SpelledAll(items)
    ensures PlacedItems(items) ==> PlacedPairs(R.PairUp(items))
  {
    hide Spelled, PlacedItem, StartsQuestion;
    if items != [] {
      PairedSpelling(items[2..]);
      assert items[1..][0] == items[1] && items[1..][1..] == items[2..];
      assert SpelledAll(items) == Spelled(items[0]) + (Spelled(items[1]) + SpelledAll(items[2..]));
      var pairs := R.PairUp(items);
      assert pairs[1..] == R.PairUp(items[2..]) &&
        SpelledPairs(pairs) == SpelledEntry(pairs[0]) + SpelledPairs(pairs[1..]);
      PairsPlaced(items);
    }
  }

  lemma {:induction false} PairAt(items: seq<Node>, i: nat)
    requires |items| % 2 == 0 && 2 * i < |items|
    ensures |R.PairUp(items)| == |items| / 2 && R.PairUp(items)[i] == Entry(items[2 * i], items[2 * i + 1])
    decreases |items|
  {
    if i > 0 {
      PairAt(items[2..], i - 1);
    } else if |items| > 2 {
      PairAt(items[2..], 0);
    }
  }

  lemma PairsPlaced(items: seq<Node>)
    requires |items| % 2 == 0 && items != []
    ensures PlacedItems(items) ==> PlacedPairs(R.PairUp(items))
  {
    hide PlacedItem, StartsQuestion;
    var pairs := R.PairUp(items);
    PairAt(items, 0);
    if PlacedItems(items) {
      forall i | 0 <= i < |pairs| ensures PlacedEntry(pairs[i]) && (i > 0 ==> !StartsQuestion(pairs[i].key)) {
        PairAt(items, i);
      }
    }
  }

  function Marked(n: Node): Node {
    R.Plain(List([R.Plain(Atomic(Symbol(None, "?"))), n]))
  }

  lemma MarkedNode(n: Node)
    ensures Spelled(Marked(n)) == Spelled(n) + [R.QUESTION]
    ensures PlacedTarget(n) ==> PlacedTarget(Marked(n))
  {
    hide PlacedOperand;
    assert IsPostfixQuestion(Marked(n).kind.items);
  }

  lemma {:induction false} PostfixPlaced(n: Node, ls: seq<R.Lexeme>)
    ensures var r := R.Postfix(n, ls);
            NoMark(r.rest) && Suffix(r.rest, ls) && Spelled(r.value) + r.rest == Spelled(n) + ls &&
            Spelled(r.value)[0] == Spelled(n)[0] && |Spelled(r.value)| + |r.rest| == |Spelled(n)| + |ls| &&
            (PlacedTarget(n) ==> PlacedTarget(r.value))
    decreases |ls|
  {
    hide Spelled, PlacedTarget, R.Postfix, Marked;
    PostfixStep(n, ls);
    if ls != [] && ls[0] == R.QUESTION {
      PostfixPlaced(Marked(n), ls[1..]);
      MarkedNode(n);
      OneMark(Spelled(n), ls);
    }
  }

  lemma PostfixStep(n: Node, ls: seq<R.Lexeme>)
    ensures R.Postfix(n, ls) ==
            if ls != [] && ls[0] == R.QUESTION then R.Postfix(Marked(n), ls[1..]) else R.Parsed(n, ls)
  {
  }

  lemma OneMark(a: seq<R.Lexeme>, ls: seq<R.Lexeme>)
    requires ls != [] && ls[0] == R.QUESTION
    ensures (a + [R.QUESTION]) + ls[1..] == a + ls
    ensures forall rest :: Suffix(rest, ls[1..]) ==> Suffix(rest, ls)
  {
  }

  /** A form with the marks after it. */
  lemma {:induction false} TargetHonest(ls: seq<R.Lexeme>)
    requires !R.AtEnd(ls) && R.Dispatch(ls).Some?
    ensures var form := R.Dispatch(ls).value;
            var r := R.Postfix(form.value, form.rest);
            Honest(ls, Spelled(r.value), r.rest, ls[0] != R.Mark(Discard) ==> PlacedTarget(r.value)) &&
              NoMark(r.rest) &&
            |r.rest| < |ls| && SameStart(ls, r.value, r.rest)
    decreases |ls|, 1
  {
    hide R.Dispatch, PlacedOperand, R.Postfix, Spelled;
    DispatchHonest(ls);
    var form := R.Dispatch(ls).value;
    PostfixPlaced(form.value, form.rest);
    SuffixOf(R.Postfix(form.value, form.rest).rest, form.rest, ls);
    if ls[0] != R.Mark(Discard) && PlacedOperand(form.value) { OperandTarget(form.value); }
  }

  lemma OperandTarget(n: Node)
    requires PlacedOperand(n) && !IsDiscard(n)
    ensures PlacedTarget(n)
  {
  }

  lemma {:induction false} FormsHonest(ls: seq<R.Lexeme>)
    requires !R.AtEnd(ls) && R.Forms(ls).Some?
    ensures var r := R.Forms(ls).value;
            Honest(ls, SpelledAll(r.value), r.rest, |r.value| == 1 && PlacedItem(r.value[0])) && NoMark(r.rest) &&
            |r.rest| < |ls| && r.value != []
    decreases |ls|, 2
  {
    hide R.Dispatch, R.Postfix, R.Discarded, Spelled, PlacedTarget;
    var n, r := R.Discards(ls), R.Forms(ls).value;
    DiscardRun(ls);
    if n == 0 {
      TargetHonest(ls);
      OneSpelled(r.value[0]);
      if PlacedTarget(r.value[0]) { TargetItem(r.value[0]); }
    } else {
      DiscardedHonest(n, ls[n..]);
      SuffixOf(r.rest, ls[n..], ls);
      if n == 1 { ChainOfOne(ls); } else { LongChain(ls, n, r.value, r.rest); }
    }
  }

  lemma TargetItem(n: Node)
    requires PlacedTarget(n)
    ensures PlacedItem(n)
  {
    hide PlacedOperand;
  }

  lemma OneSpelled(n: Node)
    ensures SpelledAll([n]) == Spelled(n)
  {
    assert [n][1..] == [] && SpelledAll([]) == [];
  }

  lemma {:induction false} DiscardRun(ls: seq<R.Lexeme>)
    ensures var n := R.Discards(ls);
            (forall i | 0 <= i < n :: ls[i] == R.Mark(Discard)) && (n < |ls| ==> ls[n] != R.Mark(Discard))
  {
    if ls != [] && ls[0] == R.Mark(Discard) { DiscardRun(ls[1..]); }
  }

  /** The targets of a run of `#_` marks, and what one mark and its target amount to. */
  ghost predicate HonestTargets(n: nat, ls: seq<R.Lexeme>, items: seq<Node>, rest: seq<R.Lexeme>) {
    Suffix(rest, ls) && |rest| + |SpelledAll(items)| <= |ls| + n && |items| == n &&
    (n > 0 ==> NoMark(rest) && |rest| < |ls| && ls != [] && IsDiscard(items[0])) &&
    (n == 1 && ls[0] != R.Mark(Discard) && [R.Mark(Discard)] + ls == SpelledAll(items) + rest ==> PlacedItem(items[0]))
  }

  lemma {:induction false} DiscardedHonest(n: nat, ls: seq<R.Lexeme>)
    requires R.Discarded(n, ls).Some?
    ensures var r := R.Discarded(n, ls).value; HonestTargets(n, ls, r.value, r.rest)
    ensures n > 0 ==> !R.AtEnd(ls)
    decreases |ls|, 2, n
  {
    hide R.Dispatch, R.Postfix, Spelled, PlacedTarget, SpelledAll;
    if n > 0 {
      TargetHonest(ls);
      var form := R.Dispatch(ls).value;
      var target := R.Postfix(form.value, form.rest);
      DiscardedHonest(n - 1, target.rest);
      var more, r := R.Discarded(n - 1, target.rest).value, R.Discarded(n, ls).value;
      SuffixOf(more.rest, target.rest, ls);
      DiscardSpelled(target.value, more.value);
      if n == 1 { OneTarget(ls, target.value, r.rest); }
    } else {
      assert SpelledAll([]) == [] by { NoneSpelled(); }
    }
  }

  lemma OneTarget(ls: seq<R.Lexeme>, target: Node, rest: seq<R.Lexeme>)
    ensures [R.Mark(Discard)] + ls == [R.Mark(Discard)] + Spelled(target) + rest ==> ls == Spelled(target) + rest
  {
    hide Spelled;
    assert ([R.Mark(Discard)] + ls)[1..] == ls;
    assert ([R.Mark(Discard)] + Spelled(target) + rest)[1..] == Spelled(target) + rest;
  }

  lemma DiscardSpelled(target: Node, more: seq<Node>)
    ensures SpelledAll([R.Plain(Prefixed(Discard, target))] + more) ==
            [R.Mark(Discard)] + Spelled(target) + SpelledAll(more)
    ensures SpelledAll([]) == []
  {
    var n := R.Plain(Prefixed(Discard, target));
    assert ([n] + more)[1..] == more && Spelled(n) == [R.Mark(Discard)] + Spelled(target);
  }

  lemma ChainOfOne(ls: seq<R.Lexeme>)
    requires |ls| > 1 && ls[0] == R.Mark(Discard)
    ensures [R.Mark(Discard)] + ls[1..] == ls
  {
  }

  /** A run of two or more marks is never how items are spelled. */
  lemma {:induction false} LongChain(ls: seq<R.Lexeme>, n: nat, items: seq<Node>, rest: seq<R.Lexeme>)
    requires 2 <= n < |ls| && (forall i | 0 <= i < n :: ls[i] == R.Mark(Discard)) && ls[n] != R.Mark(Discard)
    requires R.Discarded(n, ls[n..]) == Some(R.Parsed(items, rest))
    ensures ls != SpelledAll(items) + rest
    decreases |ls|, 1
  {
    hide R.Dispatch, R.Postfix, Spelled;
    var tail := ls[n..];
    DiscardedHonest(n, tail);
    TargetHonest(tail);
    var form := R.Dispatch(tail).value;
    var target := R.Postfix(form.value, form.rest);
    DiscardedHonest(n - 1, target.rest);
    var more := R.Discarded(n - 1, target.rest).value.value;
    assert items == [R.Plain(Prefixed(Discard, target.value))] + more;
    DiscardSpelled(target.value, more);
    var all := SpelledAll(items) + rest;
    assert all[1] == Spelled(target.value)[0];
  }

  lemma {:induction false} ItemsHonest(ls: seq<R.Lexeme>)
    requires R.Items(ls).Some?
    ensures var r := R.Items(ls).value; Honest(ls, SpelledAll(r.value), r.rest, PlacedItems(r.value))
    decreases |ls|, 3
  {
    hide R.Forms, Spelled, PlacedItem, StartsQuestion;
    var r := R.Items(ls).value;
    if R.AtEnd(ls) {
      assert SpelledAll([]) == [];
    } else {
      FormsHonest(ls);
      var some := R.Forms(ls).value;
      ItemsHonest(some.rest);
      var more := R.Items(some.rest).value;
      SuffixOf(more.rest, some.rest, ls);
      SpelledConcat(some.value, more.value);
      if ls == SpelledAll(r.value) + r.rest {
        BothKept(ls, SpelledAll(some.value), some.rest, SpelledAll(more.value), more.rest);
        ItemsPlaced(some.value, some.rest, more.value, more.rest);
      }
    }
  }

  lemma {:induction false} SpelledConcat(a: seq<Node>, b: seq<Node>)
    ensures SpelledAll(a + b) == SpelledAll(a) + SpelledAll(b)
  {
    hide Spelled;
    if a == [] {
      assert a + b == b;
    } else {
      assert (a + b)[1..] == a[1..] + b;
      SpelledConcat(a[1..], b);
    }
  }

  lemma ItemsPlaced(one: seq<Node>, mid: seq<R.Lexeme>, more: seq<Node>, rest: seq<R.Lexeme>)
    requires |one| == 1 && PlacedItem(one[0]) && PlacedItems(more) && NoMark(mid) && mid == SpelledAll(more) + rest
    ensures PlacedItems(one + more)
  {
    hide Spelled, PlacedItem, StartsQuestion;
    if more != [] {
      FirstLexeme(more[0]);
      assert mid[0] == Spelled(more[0])[0];
    }
  }

  // ---------------------------------------------------------------------------------------------
  // Printing and reading back
  // ---------------------------------------------------------------------------------------------

  lemma {:induction false} SpellableBare(h: R.Host, n: Node)
    requires Spellable(h, n)
    ensures BareTree(n)
    decreases n
  {
    match n.kind
    case Atomic(_) =>
    case List(items) => forall x | x in items ensures BareTree(x) { SpellableBare(h, x); }
    case Vector(items) => forall x | x in items ensures BareTree(x) { SpellableBare(h, x); }
    case Set(items) => forall x | x in items ensures BareTree(x) { SpellableBare(h, x); }
    case Map(pairs) =>
      forall e | e in pairs ensures BareTree(e.key) && BareTree(e.val) {
        SpellableBare(h, e.key);
        SpellableBare(h, e.val);
      }
    case Prefixed(_, inner) => SpellableBare(h, inner);
  }

  lemma NoText(h: R.Host, text: string)
    requires text == "" || IsBlank(text)
    ensures R.Lexemes(h, text) == Some([])
  {
    if text != "" { SkipBlank(h, text, ""); }
    assert text + "" == text;
  }

  /**
   Whatever text renders the tokens of a spellable tree, it is read back as the tree if and only if it is well placed.
  */
  lemma RenderingReadsBack(h: R.Host, n: Node, text: string)
    requires Spellable(h, n) && L.IsRendering(FlatNode(n), text)
    ensures R.Read(h, text) == Some([n]) <==> PlacedItem(n)
  {
    hide R.Lexemes, R.Items, Spelled, Spellable, L.IsRendering, FlatNode, PlacedItem;
    NodeLexes(h, n, text, "");
    NoText(h, "");
    assert text + "" == text && Spelled(n) + [] == Spelled(n);
    SpellableBare(h, n);
    OneSpelled(n);
    if PlacedItem(n) {
      JustOne(n);
      ItemsRead([n], []);
    }
    if R.Items(Spelled(n)).Some? { ItemsHonest(Spelled(n)); }
    assert PlacedItems([n]) ==> PlacedItem([n][0]);
  }

  lemma JustOne(n: Node)
    requires PlacedItem(n)
    ensures PlacedItems([n])
  {
    hide PlacedItem;
  }

  /** The forms of a file are read back, in order. */
  lemma FileReadsBack(h: R.Host, nodes: seq<Node>, text: string)
    requires (forall n <- nodes :: Spellable(h, n)) && PlacedItems(nodes) && L.IsRendering(L.FileTokens(nodes), text)
    ensures R.Read(h, text) == Some(nodes)
  {
    hide R.Lexemes, R.Items, Spellable, L.IsRendering, FlatItems, PlacedItems;
    forall n | n in nodes ensures BareTree(n) { SpellableBare(h, n); }
    assert SpelledAll(nodes) + [] == SpelledAll(nodes);
    ItemsRead(nodes, []);
    if nodes == [] {
      NoParts(text);
      NoText(h, text);
      NoneSpelled();
    } else {
      var x, g := SplitRendering(FlatItems(nodes), [Gap], text);
      OnePart(Gap, g);
      NoText(h, g);
      assert Stops(g) by { BlankStops(g, ""); assert g + "" == g; }
      BodyLexes(h, nodes, x, g);
    }
  }

  /** Formatting keeps the program: whatever the layout, the text is read back as the tree. */
  method FormatAndRead(cfg: P.PrintConfig, h: R.Host, n: Node, indent: nat, column: nat) returns (text: string)
    requires P.Printable(cfg.alignColumns, n) && Readable(h, n)
    ensures R.Read(h, text) == Some([n])
  {
    text := L.PrintIndented(cfg, n, indent, column);
    RenderingReadsBack(h, n, text);
  }

  /** `print_file` and `read`. */
  method FormatFileAndRead(cfg: P.PrintConfig, h: R.Host, nodes: seq<Node>) returns (text: string)
    requires P.AllPrintable(cfg.alignColumns, nodes) && (forall n <- nodes :: Spellable(h, n)) && PlacedItems(nodes)
    ensures R.Read(h, text) == Some(nodes)
  {
    text := L.PrintFile(cfg, nodes);
    FileReadsBack(h, nodes, text);
  }

  lemma {:induction false} FlatRendering(ts: seq<Tok>)
    ensures L.IsRendering(ts, SpellAll(ts))
  {
    if ts == [] {
      assert Renders([], [], "");
    } else {
      FlatRendering(ts[..|ts| - 1]);
      var last := ts[|ts| - 1];
      var parts :| Renders(ts[..|ts| - 1], parts, SpellAll(ts[..|ts| - 1]));
      OwnSpelling(last);
      Extended(ts, parts);
    }
  }

  lemma OwnSpelling(t: Tok)
    ensures Spells(t, Spell(t))
  {
    if t.LeadComment? {
      LeadSpells(t.comment, "");
      assert "" + (";" + t.comment + "\n") == ";" + t.comment + "\n";
    }
  }

  lemma Extended(ts: seq<Tok>, parts: seq<string>)
    requires ts != [] && Renders(ts[..|ts| - 1], parts, SpellAll(ts[..|ts| - 1]))
    requires Spells(ts[|ts| - 1], Spell(ts[|ts| - 1]))
    ensures L.IsRendering(ts, SpellAll(ts))
  {
    hide Spells, Spell;
    var last := |ts| - 1;
    var init, all := ts[..last], parts + [Spell(ts[last])];
    assert all[..last] == parts && all[last] == Spell(ts[last]);
    assert Join(all) == SpellAll(ts);
    hide Join, SpellAll;
    forall i | 0 <= i < |ts| ensures Spells(ts[i], all[i]) {
      if i < last { assert Spells(init[i], parts[i]); }
    }
    assert Renders(ts, all, SpellAll(ts));
  }

  /** `print` and `read`: exact for trees whose tokens can be told apart. */
  lemma PrintReadsBack(h: R.Host, n: Node)
    requires Spellable(h, n)
    ensures R.Read(h, FlatText(n)) == Some([n]) <==> PlacedItem(n)
  {
    hide L.IsRendering, FlatNode, Spellable, R.Read, PlacedItem, SpellAll;
    FlatRendering(FlatNode(n));
    RenderingReadsBack(h, n, FlatText(n));
  }

  // ---------------------------------------------------------------------------------------------
  // Trees that are not read back
  // ---------------------------------------------------------------------------------------------

  function Name0(name: string): Node {
    R.Plain(Atomic(Symbol(None, name)))
  }

  lemma OneLeaf(h: R.Host, a: Atom, text: string)
    requires ReadableAtom(h, a) && text == AtomText(a)
    ensures R.Lexemes(h, text) == Some([R.Leaf(a)])
  {
    hide R.LexOne, R.Lexemes, ReadableAtom, AtomText;
    AtomLexes(h, a, "");
    assert text + "" == text;
    LexStep(h, text, R.Leaf(a), "");
    NoText(h, "");
    assert [R.Leaf(a)] + [] == [R.Leaf(a)];
  }

  lemma OneAtomRead(h: R.Host, a: Atom, text: string)
    requires R.Lexemes(h, text) == Some([R.Leaf(a)])
    ensures R.Read(h, text) == Some([R.Plain(Atomic(a))])
  {
    hide R.Lexemes;
    var n := R.Plain(Atomic(a));
    assert [R.Leaf(a)] + [] == [R.Leaf(a)] && SpelledAll([n]) == [R.Leaf(a)] by { OneSpelled(n); }
    assert PlacedOperand(n) && PlacedItem(n);
    JustOne(n);
    ItemsRead([n], []);
  }

  /** The mark of `(? name)` is printed so close to the name that both read as one symbol. */
  lemma QuestionMerges(h: R.Host, name: string)
    requires FirstName(h, name)
    ensures var n := R.Plain(List([Name0("?"), Name0(name)])); R.Read(h, FlatText(n)) == Some([Name0(name + "?")])
  {
    hide R.Lexemes, R.Read;
    var n := R.Plain(List([Name0("?"), Name0(name)]));
    NameTokens(name);
    NameTokens("?");
    FlatBare(n);
    assert FlatNode(n) == [Word(name)] + [Word("?")];
    SpellConcat([Word(name)], [Word("?")]);
    WordText(name);
    WordText("?");
    MarkedName(h, name);
    OneLeaf(h, Symbol(None, name + "?"), name + "?");
    OneAtomRead(h, Symbol(None, name + "?"), name + "?");
  }

  lemma NameTokens(name: string)
    ensures FlatNode(Name0(name)) == [Word(name)]
  {
    FlatBare(Name0(name));
  }

  lemma WordText(text: string)
    ensures SpellAll([Word(text)]) == text
  {
    assert [Word(text)][..0] == [] && SpellAll([]) == "";
    assert "" + text == text;
  }

  lemma MarkedName(h: R.Host, name: string)
    requires FirstName(h, name)
    ensures ReadableAtom(h, Symbol(None, name + "?")) && AtomText(Symbol(None, name + "?")) == name + "?"
  {
    var t := name + "?";
    assert forall i | 0 <= i < |name| :: t[i] == name[i];
    assert t[|name|] == '?';
    assert |t| > 2 ==> t[..3] == [t[0], t[1], t[2]];
    assert |name| > 2 ==> name[..3] == [name[0], name[1], name[2]];
    assert t[|t| - 1] == '?' && !Reserved(t);
  }

  /** `~` before `@` reads as `~@`. */
  lemma UnquoteMerges(h: R.Host, name: string)
    requires FirstName(h, name) && !Reserved(name)
    ensures var n := R.Plain(Prefixed(Unquote, R.Plain(Prefixed(Deref, Name0(name)))));
            R.Read(h, FlatText(n)) == Some([R.Plain(Prefixed(UnquoteSplice, Name0(name)))])
  {
    hide R.Read, SpellAll, FlatNode, Spellable, PlacedItem;
    var n := R.Plain(Prefixed(Unquote, R.Plain(Prefixed(Deref, Name0(name)))));
    var m := R.Plain(Prefixed(UnquoteSplice, Name0(name)));
    MarkTokens(name);
    ThreeWords("~", "@", name);
    TwoWords("~@", name);
    assert "~" + "@" == "~@" && FlatText(n) == FlatText(m);
    SpliceReadable(h, name);
    PrintReadsBack(h, m);
  }

  lemma MarkTokens(name: string)
    ensures FlatNode(R.Plain(Prefixed(UnquoteSplice, Name0(name)))) == [Word("~@"), Word(name)]
    ensures FlatNode(R.Plain(Prefixed(Unquote, R.Plain(Prefixed(Deref, Name0(name)))))) ==
            [Word("~"), Word("@"), Word(name)]
  {
    var inner := R.Plain(Prefixed(Deref, Name0(name)));
    NameTokens(name);
    hide FlatNode, FlatKind;
    FlatBare(R.Plain(Prefixed(UnquoteSplice, Name0(name))));
    PrefixTokens(UnquoteSplice, Name0(name));
    FlatBare(inner);
    PrefixTokens(Deref, Name0(name));
    FlatBare(R.Plain(Prefixed(Unquote, inner)));
    PrefixTokens(Unquote, inner);
  }

  lemma SpliceReadable(h: R.Host, name: string)
    requires FirstName(h, name) && !Reserved(name)
    ensures Readable(h, R.Plain(Prefixed(UnquoteSplice, Name0(name))))
  {
    hide FirstName, TagName;
    var n := Name0(name);
    assert n.kind == Atomic(Symbol(None, name)) && PlacedOperand(n);
    assert ReadableAtom(h, n.kind.atom) && SpellableKind(h, n.kind);
    assert Spellable(h, n);
    var m := R.Plain(Prefixed(UnquoteSplice, n));
    assert PlacedOperand(m) && PlacedTarget(m) && PlacedItem(m);
    assert SpellableKind(h, m.kind) && Spellable(h, m);
  }

  lemma TwoWords(a: string, b: string)
    ensures SpellAll([Word(a), Word(b)]) == a + b
  {
    assert [Word(a), Word(b)] == [Word(a)] + [Word(b)];
    SpellConcat([Word(a)], [Word(b)]);
    WordText(a);
    WordText(b);
  }

  lemma ThreeWords(a: string, b: string, c: string)
    ensures SpellAll([Word(a), Word(b), Word(c)]) == a + b + c
  {
    assert [Word(a), Word(b), Word(c)] == [Word(a), Word(b)] + [Word(c)];
    SpellConcat([Word(a), Word(b)], [Word(c)]);
    TwoWords(a, b);
    WordText(c);
  }
}
