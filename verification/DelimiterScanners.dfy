/**
 The two hand-written scanners that read printed programs: `delimiters_balanced`, which decides in the REPL whether
 a form is complete (crates/nexl-cli/src/main.rs), and `find_interpolation_end`, which finds the end of an embedded
 expression in a string (crates/nexl-eval/src/eval.rs).
*/
module DelimiterScanners {
  import opened Basics
  import opened Ast
  import opened FlatPrinter
  import opened LayoutTheorems

  /** The counters and string flags shared by both scanners. */
  datatype Scan = Scan(paren: int, bracket: int, brace: int, inString: bool, escaped: bool)

  const START := Scan(0, 0, 0, false, false)

  function ScanStep(st: Scan, c: char): Scan {
    if st.inString then
      if st.escaped then st.(escaped := false)
      else if c == '\\' then st.(escaped := true)
      else if c == '"' then st.(inString := false)
      else st
    else
      match c
      case '"' => st.(inString := true)
      case '(' => st.(paren := st.paren + 1)
      case ')' => st.(paren := st.paren - 1)
      case '[' => st.(bracket := st.bracket + 1)
      case ']' => st.(bracket := st.bracket - 1)
      case '{' => st.(brace := st.brace + 1)
      case '}' => st.(brace := st.brace - 1)
      case _ => st
  }

  function ScanAll(st: Scan, s: string): Scan {
    if s == [] then st else ScanStep(ScanAll(st, s[..|s| - 1]), s[|s| - 1])
  }

  predicate Closed(st: Scan) {
    st.paren == 0 && st.bracket == 0 && st.brace == 0
  }

  // ---------------------------------------------------------------------------------------------
  // Self-contained texts
  // ---------------------------------------------------------------------------------------------

  predicate Clean(st: Scan) {
    !st.inString && !st.escaped
  }

  predicate Above(st: Scan, floor: Scan) {
    st.paren >= floor.paren && st.bracket >= floor.bracket && st.brace >= floor.brace
  }

  /**
   Scanning `t` from `st` never closes a delimiter opened before, meets no `;` outside strings, and ends where it
   started.
  */
  ghost predicate Enclosed(st: Scan, t: string) {
    && (forall k | 0 <= k <= |t| :: Above(ScanAll(st, t[..k]), st))
    && (forall k | 0 <= k < |t| :: ScanAll(st, t[..k]).inString || t[k] != ';')
    && ScanAll(st, t) == st
  }

  lemma {:induction false} ScanConcat(st: Scan, a: string, b: string)
    ensures ScanAll(st, a + b) == ScanAll(ScanAll(st, a), b)
  {
    hide ScanStep;
    if b == [] {
      assert a + b == a;
    } else {
      assert (a + b)[..|a + b| - 1] == a + b[..|b| - 1];
      ScanConcat(st, a, b[..|b| - 1]);
    }
  }

  lemma ScanOne(st: Scan, c: char)
    ensures ScanAll(st, [c]) == ScanStep(st, c)
  {
    assert [c][..0] == [];
  }

  lemma EnclosedConcat(st: Scan, a: string, b: string)
    requires Enclosed(st, a) && Enclosed(st, b)
    ensures Enclosed(st, a + b)
  {
    hide ScanAll;
    var t := a + b;
    forall k | 0 <= k <= |t|
      ensures Above(ScanAll(st, t[..k]), st)
      ensures k < |t| ==> ScanAll(st, t[..k]).inString || t[k] != ';'
    {
      if k < |a| {
        assert t[..k] == a[..k];
      } else {
        assert t[..k] == a + b[..k - |a|];
        ScanConcat(st, a, b[..k - |a|]);
      }
    }
    ScanConcat(st, a, b);
  }

  /** An opening and a closing delimiter around a text enclosed one level deeper. */
  predicate Matching(st: Scan, open: char, close: char, inner: Scan) {
    Clean(st) && inner == ScanStep(st, open) && ScanStep(inner, close) == st && Above(inner, st) && inner != st
    && IsDelimiter(open) && IsDelimiter(close)
  }

  /** Strictly between its ends, `t` stays above `floor`. */
  ghost predicate Inside(st: Scan, floor: Scan, t: string) {
    forall k | 0 < k < |t| :: Above(ScanAll(st, t[..k]), floor)
  }

  lemma EnclosedWrap(st: Scan, open: char, body: string, close: char)
    requires Matching(st, open, close, ScanStep(st, open)) && Enclosed(ScanStep(st, open), body)
    ensures Enclosed(st, [open] + body + [close])
    ensures Inside(st, ScanStep(st, open), [open] + body + [close])
  {
    hide ScanAll;
    var t, inner := [open] + body + [close], ScanStep(st, open);
    ScanOne(st, open);
    forall k | 0 < k < |t|
      ensures Above(ScanAll(st, t[..k]), inner)
      ensures ScanAll(st, t[..k]).inString || t[k] != ';'
    {
      assert t[..k] == [open] + body[..k - 1];
      ScanConcat(st, [open], body[..k - 1]);
      if k == |t| - 1 {
        assert body[..k - 1] == body;
      }
    }
    ScanNothing(st);
    assert t[..0] == [] && t[..|t|] == ([open] + body) + [close];
    ScanConcat(st, [open] + body, [close]);
    ScanConcat(st, [open], body);
    ScanOne(inner, close);
  }

  lemma ScanNothing(st: Scan)
    ensures ScanAll(st, "") == st
  {
  }

  /** A character outside strings that neither scanner reacts to. */
  predicate Quiet(c: char) {
    !IsDelimiter(c) && c != '"' && c != ';'
  }

  lemma {:induction false} QuietStays(st: Scan, t: string)
    requires Clean(st) && forall i | 0 <= i < |t| :: Quiet(t[i])
    ensures ScanAll(st, t) == st
  {
    if t != [] { QuietStays(st, t[..|t| - 1]); }
  }

  lemma QuietEnclosed(st: Scan, t: string)
    requires Clean(st) && forall i | 0 <= i < |t| :: Quiet(t[i])
    ensures Enclosed(st, t)
  {
    hide ScanAll;
    forall k | 0 <= k <= |t| ensures ScanAll(st, t[..k]) == st { QuietStays(st, t[..k]); }
    assert t[..|t|] == t;
  }

  /** Inside a string literal the counters stay and every position is inside the string. */
  ghost predicate Quoted(st: Scan, t: string) {
    && (forall k | 0 <= k <= |t| ::
          ScanAll(st, t[..k]).inString && Above(ScanAll(st, t[..k]), st))
    && ScanAll(st, t) == st
  }

  lemma {:induction false} EscapeQuoted(st: Scan, s: string)
    requires st.inString && !st.escaped
    ensures Quoted(st, Escape(s))
  {
    hide ScanAll;
    if s == [] {
      ScanNothing(st);
    } else {
      var a, b := Escape(s[..|s| - 1]), EscapeChar(s[|s| - 1]);
      EscapeQuoted(st, s[..|s| - 1]);
      EscapeCharQuoted(st, s[|s| - 1]);
      forall k | 0 <= k <= |a + b|
        ensures ScanAll(st, (a + b)[..k]).inString && Above(ScanAll(st, (a + b)[..k]), st)
      {
        if k <= |a| {
          assert (a + b)[..k] == a[..k];
        } else {
          assert (a + b)[..k] == a + b[..k - |a|];
          ScanConcat(st, a, b[..k - |a|]);
        }
      }
      ScanConcat(st, a, b);
    }
  }

  lemma EscapeCharQuoted(st: Scan, c: char)
    requires st.inString && !st.escaped
    ensures Quoted(st, EscapeChar(c))
  {
    var t := EscapeChar(c);
    assert t[..0] == [];
    if |t| == 1 {
      assert t[..1] == t;
    } else {
      assert t[..1][..0] == [] && t[..2] == t;
      assert ScanAll(st, t[..1]) == ScanStep(ScanAll(st, []), t[0]) == st.(escaped := true);
    }
  }

  lemma StrEnclosed(st: Scan, s: string)
    requires Clean(st)
    ensures Enclosed(st, StrText(s))
  {
    hide ScanAll, Escape;
    var t, body, inner := StrText(s), Escape(s), ScanStep(st, '"');
    EscapeQuoted(inner, s);
    ScanOne(st, '"');
    ScanNothing(st);
    assert t == "\"" + body + "\"";
    forall k | 0 < k < |t|
      ensures ScanAll(st, t[..k]).inString && Above(ScanAll(st, t[..k]), st)
    {
      assert t[..k] == "\"" + body[..k - 1];
      ScanConcat(st, "\"", body[..k - 1]);
    }
    assert t[..0] == [] && t[..|t|] == t && t == ("\"" + body) + "\"";
    ScanConcat(st, "\"" + body, "\"");
    ScanConcat(st, "\"", body);
    ScanOne(inner, '"');
  }

  lemma CharEnclosed(st: Scan, c: char)
    requires Clean(st) && Quiet(c)
    ensures Enclosed(st, CharText(c))
  {
    hide ScanAll, Numeral;
    var t := CharText(c);
    if c == ' ' || c == '\n' || c == '\t' || c == '\r' || IsAsciiGraphic(c) {
      QuietEnclosed(st, t);
    } else {
      var digits := Numeral(c as nat, 16);
      QuietEnclosed(st, "\\u");
      QuietEnclosed(ScanStep(st, '{'), digits);
      EnclosedWrap(st, '{', digits, '}');
      EnclosedConcat(st, "\\u", ['{'] + digits + ['}']);
      assert t == "\\u" + (['{'] + digits + ['}']);
    }
  }

  // ---------------------------------------------------------------------------------------------
  // Printed nodes are self-contained
  // ---------------------------------------------------------------------------------------------

  /** Lexable, on one line, and not a character literal for a delimiter, a quote or a semicolon. */
  predicate ScannableAtom(a: Atom) {
    OneLineAtom(a) && (a.Char? ==> Quiet(a.c))
  }

  lemma AtomEnclosed(st: Scan, a: Atom)
    requires Clean(st) && ScannableAtom(a)
    ensures Enclosed(st, Spell(AtomTok(a)))
  {
    hide Enclosed, PlainAtom;
    match a
    case Char(c) => CharEnclosed(st, c);
    case Str(s) => StrEnclosed(st, s);
    case _ =>
      AtomTextPlain(a);
      QuietEnclosed(st, AtomText(a));
  }

  ghost predicate EnclosedToks(st: Scan, ts: seq<Tok>) {
    Enclosed(st, SpellAll(ts))
  }

  lemma ToksConcat(st: Scan, a: seq<Tok>, b: seq<Tok>)
    requires EnclosedToks(st, a) && EnclosedToks(st, b)
    ensures EnclosedToks(st, a + b)
  {
    hide Enclosed;
    SpellConcat(a, b);
    EnclosedConcat(st, SpellAll(a), SpellAll(b));
  }

  lemma SpellOne(t: Tok)
    ensures SpellAll([t]) == Spell(t)
  {
    assert [t][..0] == [] && SpellAll([t]) == SpellAll([t][..0]) + Spell(t);
  }

  lemma SpellWord(w: string)
    ensures Spell(Word(w)) == w
  {
  }

  lemma QuietToks(st: Scan, t: Tok)
    requires Clean(st) && forall i | 0 <= i < |Spell(t)| :: Quiet(Spell(t)[i])
    ensures EnclosedToks(st, [t])
  {
    hide Enclosed;
    SpellOne(t);
    QuietEnclosed(st, Spell(t));
  }

  lemma {:induction false} NodeEnclosed(st: Scan, n: Node)
    requires Clean(st) && CommentFree(n) && AllAtoms(n, ScannableAtom)
    ensures EnclosedToks(st, FlatNode(n))
    decreases n
  {
    hide EnclosedToks;
    KindEnclosed(st, n.kind);
    assert FlatNode(n) == FlatKind(n.kind);
  }

  lemma {:induction false} KindEnclosed(st: Scan, k: Kind)
    requires Clean(st) && CommentFreeKind(k) && AllAtomsKind(k, ScannableAtom)
    ensures EnclosedToks(st, FlatKind(k))
    decreases k
  {
    hide EnclosedToks, FlatItems, FlatPairs, FlatNode, ScannableAtom, Spell, ScanStep;
    match k
    case Atomic(a) => AtomToksEnclosed(st, a);
    case List(items) =>
      if IsPostfixQuestion(items) {
        NodeEnclosed(st, items[1]);
        WordEnclosed(st, "?");
        ToksConcat(st, FlatNode(items[1]), [Word("?")]);
      } else {
        Pairs(st);
        ItemsEnclosed(ScanStep(st, '('), items);
        DelimitedEnclosed(st, '(', FlatItems(items), ')');
      }
    case Vector(items) =>
      Pairs(st);
      ItemsEnclosed(ScanStep(st, '['), items);
      DelimitedEnclosed(st, '[', FlatItems(items), ']');
    case Set(items) =>
      Pairs(st);
      ItemsEnclosed(ScanStep(st, '{'), items);
      DelimitedEnclosed(st, '{', FlatItems(items), '}');
      WordEnclosed(st, "#");
      ToksConcat(st, [Word("#")], Delimited("{", FlatItems(items), "}"));
    case Map(pairs) =>
      Pairs(st);
      PairsEnclosed(ScanStep(st, '{'), pairs);
      DelimitedEnclosed(st, '{', FlatPairs(pairs), '}');
    case Prefixed(p, inner) =>
      NodeEnclosed(st, inner);
      PrefixQuiet(p);
      WordEnclosed(st, PrefixText(p));
      ToksConcat(st, [Word(PrefixText(p))], FlatNode(inner));
  }

  lemma Pairs(st: Scan)
    requires Clean(st)
    ensures Matching(st, '(', ')', ScanStep(st, '(')) && Clean(ScanStep(st, '('))
    ensures Matching(st, '[', ']', ScanStep(st, '[')) && Clean(ScanStep(st, '['))
    ensures Matching(st, '{', '}', ScanStep(st, '{')) && Clean(ScanStep(st, '{'))
  {
  }

  lemma PrefixQuiet(p: Prefix)
    ensures forall i | 0 <= i < |PrefixText(p)| :: Quiet(PrefixText(p)[i])
  {
  }

  lemma WordEnclosed(st: Scan, w: string)
    requires Clean(st) && forall i | 0 <= i < |w| :: Quiet(w[i])
    ensures EnclosedToks(st, [Word(w)])
  {
    hide EnclosedToks;
    QuietToks(st, Word(w));
  }

  lemma GapEnclosed(st: Scan)
    requires Clean(st)
    ensures EnclosedToks(st, [Gap])
  {
    hide EnclosedToks;
    QuietToks(st, Gap);
  }

  lemma AtomToksEnclosed(st: Scan, a: Atom)
    requires Clean(st) && ScannableAtom(a)
    ensures EnclosedToks(st, [AtomTok(a)])
  {
    hide Enclosed;
    SpellOne(AtomTok(a));
    AtomEnclosed(st, a);
  }

  lemma DelimitedSpelling(open: char, body: seq<Tok>, close: char)
    ensures SpellAll(Delimited([open], body, [close])) == [open] + SpellAll(body) + [close]
  {
    hide SpellAll;
    SpellConcat([Word([open])] + body, [Word([close])]);
    SpellConcat([Word([open])], body);
    SpellOne(Word([open]));
    SpellOne(Word([close]));
  }

  lemma DelimitedEnclosed(st: Scan, open: char, body: seq<Tok>, close: char)
    requires Matching(st, open, close, ScanStep(st, open)) && EnclosedToks(ScanStep(st, open), body)
    ensures EnclosedToks(st, Delimited([open], body, [close]))
    ensures Inside(st, ScanStep(st, open), SpellAll(Delimited([open], body, [close])))
  {
    hide Enclosed, SpellAll;
    DelimitedSpelling(open, body, close);
    EnclosedWrap(st, open, SpellAll(body), close);
  }

  lemma {:induction false} ItemsEnclosed(st: Scan, items: seq<Node>)
    requires Clean(st) && forall i | 0 <= i < |items| :: CommentFree(items[i]) && AllAtoms(items[i], ScannableAtom)
    ensures EnclosedToks(st, FlatItems(items))
    decreases items
  {
    hide EnclosedToks, FlatNode, CommentFree, AllAtoms;
    if items == [] {
      NothingEnclosed(st);
    } else {
      var init, last := items[..|items| - 1], items[|items| - 1];
      NodeEnclosed(st, last);
      if |items| > 1 {
        ItemsEnclosed(st, init);
        GapEnclosed(st);
        ToksConcat(st, FlatItems(init), [Gap]);
        ToksConcat(st, FlatItems(init) + [Gap], FlatNode(last));
      }
    }
  }

  lemma NothingEnclosed(st: Scan)
    requires Clean(st)
    ensures EnclosedToks(st, [])
  {
    QuietEnclosed(st, "");
  }

  lemma {:induction false} PairsEnclosed(st: Scan, pairs: seq<Entry>)
    requires Clean(st)
    requires forall i | 0 <= i < |pairs| ::
               CommentFree(pairs[i].key) && CommentFree(pairs[i].val) && AllAtomsEntry(pairs[i], ScannableAtom)
    ensures EnclosedToks(st, FlatPairs(pairs))
    decreases pairs
  {
    hide EnclosedToks, FlatEntry, CommentFree, AllAtomsEntry;
    if pairs == [] {
      NothingEnclosed(st);
    } else {
      var init, last := pairs[..|pairs| - 1], pairs[|pairs| - 1];
      EntryEnclosed(st, last);
      if |pairs| > 1 {
        PairsEnclosed(st, init);
        GapEnclosed(st);
        ToksConcat(st, FlatPairs(init), [Gap]);
        ToksConcat(st, FlatPairs(init) + [Gap], FlatEntry(last));
      }
    }
  }

  lemma {:induction false} EntryEnclosed(st: Scan, e: Entry)
    requires Clean(st) && CommentFree(e.key) && CommentFree(e.val) && AllAtomsEntry(e, ScannableAtom)
    ensures EnclosedToks(st, FlatEntry(e))
    decreases e
  {
    hide EnclosedToks, FlatNode;
    NodeEnclosed(st, e.key);
    NodeEnclosed(st, e.val);
    GapEnclosed(st);
    ToksConcat(st, FlatNode(e.key), [Gap]);
    ToksConcat(st, FlatNode(e.key) + [Gap], FlatNode(e.val));
  }

  // ---------------------------------------------------------------------------------------------
  // The REPL's completeness check
  // ---------------------------------------------------------------------------------------------

  /** `delimiters_balanced` also skips comments, and stops as soon as a delimiter closes nothing. */
  datatype Repl = Repl(scan: Scan, inComment: bool, stopped: bool)

  function ReplStep(r: Repl, c: char): Repl {
    if r.stopped then r
    else if r.inComment then r.(inComment := c != '\n')
    else if r.scan.inString then r.(scan := ScanStep(r.scan, c))
    else if c == ';' then r.(inComment := true)
    else
      var st := ScanStep(r.scan, c);
      Repl(st, false, st.paren < 0 || st.bracket < 0 || st.brace < 0)
  }

  function ReplAll(s: string): Repl {
    if s == [] then Repl(START, false, false) else ReplStep(ReplAll(s[..|s| - 1]), s[|s| - 1])
  }

  /** The answer of the completeness check. */
  predicate Accepts(s: string) {
    var r := ReplAll(s);
    r.stopped || Closed(r.scan)
  }

  lemma {:induction false} StoppedStays(s: string, k: nat)
    requires k <= |s| && ReplAll(s[..k]).stopped
    ensures ReplAll(s).stopped
  {
    if k < |s| {
      assert s[..|s| - 1][..k] == s[..k];
      StoppedStays(s[..|s| - 1], k);
    } else {
      assert s[..k] == s;
    }
  }

  method DelimitersBalanced(source: string) returns (balanced: bool)
    ensures balanced <==> Accepts(source)
  {
    hide ReplStep;
    var paren, bracket, brace := 0, 0, 0;
    var inString, escaped, inComment := false, false, false;
    for i := 0 to |source|
      invariant ReplAll(source[..i]) == Repl(Scan(paren, bracket, brace, inString, escaped), inComment, false)
    {
      var ch := source[i];
      ghost var before := ReplAll(source[..i]);
      assert source[..i + 1][..i] == source[..i];
      assert ReplAll(source[..i + 1]) == ReplStep(before, ch);
      ReplCases(before, ch);
      if inComment {
        inComment := ch != '\n';
      } else if inString {
        if escaped {
          escaped := false;
        } else if ch == '\\' {
          escaped := true;
        } else if ch == '"' {
          inString := false;
        }
      } else {
        match ch
        case ';' => inComment := true;
        case '"' => inString := true;
        case '(' => paren := paren + 1;
        case ')' =>
          paren := paren - 1;
          if paren < 0 { StoppedStays(source, i + 1); return true; }
        case '[' => bracket := bracket + 1;
        case ']' =>
          bracket := bracket - 1;
          if bracket < 0 { StoppedStays(source, i + 1); return true; }
        case '{' => brace := brace + 1;
        case '}' =>
          brace := brace - 1;
          if brace < 0 { StoppedStays(source, i + 1); return true; }
        case _ =>
      }
      NeverNegative(source[..i + 1]);
    }
    assert source[..|source|] == source;
    balanced := paren == 0 && bracket == 0 && brace == 0;
  }

  lemma ReplCases(r: Repl, c: char)
    requires !r.stopped
    ensures ReplStep(r, c) ==
            if r.inComment then r.(inComment := c != '\n')
            else if r.scan.inString then r.(scan := ScanStep(r.scan, c))
            else if c == ';' then r.(inComment := true)
            else
              var st := ScanStep(r.scan, c);
              Repl(st, false, st.paren < 0 || st.bracket < 0 || st.brace < 0)
  {
  }

  lemma {:induction false} NeverNegative(s: string)
    ensures !ReplAll(s).stopped ==> Above(ReplAll(s).scan, START)
  {
    if s != [] { NeverNegative(s[..|s| - 1]); }
  }

  /** On a self-contained text neither comments nor early stops occur. */
  lemma {:induction false} ReplOnEnclosed(t: string, k: nat)
    requires Enclosed(START, t) && k <= |t|
    ensures ReplAll(t[..k]) == Repl(ScanAll(START, t[..k]), false, false)
  {
    hide ScanStep;
    if k > 0 {
      ReplOnEnclosed(t, k - 1);
      assert t[..k][..k - 1] == t[..k - 1];
      assert Above(ScanAll(START, t[..k]), START);
    } else {
      assert t[..0] == [];
    }
  }

  /** Vectors, maps and lists that are not printed as `expr?`. */
  predicate IsBracketed(k: Kind) {
    k.Vector? || k.Map? || (k.List? && !IsPostfixQuestion(k.items))
  }

  /** No prefix that a user may have typed so far is taken for a complete form. */
  ghost predicate NoEarlyAccept(t: string) {
    forall k | 0 < k < |t| :: !Accepts(t[..k])
  }

  lemma BracketedPending(open: char, body: seq<Tok>, close: char)
    requires Matching(START, open, close, ScanStep(START, open)) && EnclosedToks(ScanStep(START, open), body)
    ensures NoEarlyAccept(SpellAll(Delimited([open], body, [close])))
  {
    hide SpellAll, ScanAll, Accepts, ScanStep;
    DelimitedEnclosed(START, open, body, close);
    var t := SpellAll(Delimited([open], body, [close]));
    forall k | 0 < k < |t|
      ensures !Accepts(t[..k])
    {
      ReplOnEnclosed(t, k);
      assert Above(ScanAll(START, t[..k]), ScanStep(START, open));
      AboveInner(open, close, ScanAll(START, t[..k]));
      NotAccepted(t[..k]);
    }
  }

  lemma AboveInner(open: char, close: char, st: Scan)
    requires Matching(START, open, close, ScanStep(START, open)) && Above(st, ScanStep(START, open))
    ensures !Closed(st)
  {
  }

  lemma NotAccepted(s: string)
    requires !ReplAll(s).stopped && !Closed(ReplAll(s).scan)
    ensures !Accepts(s)
  {
  }

  lemma EnclosedAccepted(t: string)
    requires Enclosed(START, t)
    ensures Accepts(t)
  {
    ReplOnEnclosed(t, |t|);
    assert t[..|t|] == t;
  }

  lemma FirstAccepted(t: string)
    requires t != [] && !IsDelimiter(t[0]) && t[0] != ';'
    ensures Accepts(t[..1])
  {
    assert t[..1][..0] == [];
    assert ReplAll(t[..1]) == ReplStep(ReplAll(t[..1][..0]), t[0]);
  }

  /**
   A printed node is complete for the REPL. No proper prefix of it is, exactly when it is a bracketed form (or a
   single character, which has none).
  */
  lemma ReplAgreesWithPrinter(n: Node)
    requires CommentFree(n) && AllAtoms(n, ScannableAtom)
    ensures Accepts(FlatText(n))
    ensures NoEarlyAccept(FlatText(n)) <==> IsBracketed(n.kind) || |FlatText(n)| == 1
  {
    hide Enclosed, FlatNode, SpellAll, Accepts, ScanStep, AllAtoms, CommentFree;
    NodeEnclosed(START, n);
    var t := FlatText(n);
    EnclosedAccepted(t);
    if IsBracketed(n.kind) {
      BracketedWaits(n);
    } else if n.kind.List? {
      QuestionEarly(n);
    } else {
      FirstOf(n);
      FirstAccepted(t);
    }
  }

  lemma BracketedWaits(n: Node)
    requires CommentFree(n) && AllAtoms(n, ScannableAtom) && IsBracketed(n.kind)
    ensures NoEarlyAccept(FlatText(n))
  {
    hide Enclosed, EnclosedToks, FlatNode, FlatItems, FlatPairs, SpellAll, Accepts, ScanStep, ScannableAtom,
      NoEarlyAccept;
    BareNode(n);
    Pairs(START);
    match n.kind
    case Vector(items) =>
      ItemsEnclosed(ScanStep(START, '['), items);
      BracketedPending('[', FlatItems(items), ']');
    case Map(pairs) =>
      PairsEnclosed(ScanStep(START, '{'), pairs);
      BracketedPending('{', FlatPairs(pairs), '}');
    case List(items) =>
      ItemsEnclosed(ScanStep(START, '('), items);
      BracketedPending('(', FlatItems(items), ')');
  }

  /** The text of `expr?` is complete before its question mark. */
  lemma QuestionEarly(n: Node)
    requires CommentFree(n) && AllAtoms(n, ScannableAtom) && n.kind.List? && IsPostfixQuestion(n.kind.items)
    ensures !NoEarlyAccept(FlatText(n)) && |FlatText(n)| != 1
  {
    hide Enclosed, FlatNode, SpellAll, Accepts, ScannableAtom, Spell;
    BareNode(n);
    var t, expr := FlatText(n), n.kind.items[1];
    var inner := FlatText(expr);
    NodeEnclosed(START, expr);
    EnclosedAccepted(inner);
    SpellConcat(FlatNode(expr), [Word("?")]);
    SpellOne(Word("?"));
    TextEnds(expr);
    assert t[..|inner|] == inner && |t| == |inner| + 1 by { SpellWord("?"); }
  }

  lemma BareNode(n: Node)
    requires CommentFree(n)
    ensures FlatNode(n) == FlatKind(n.kind)
  {
  }

  /** Forms that are not bracketed start with a character the scanner does not count. */
  lemma FirstOf(n: Node)
    requires CommentFree(n) && AllAtoms(n, ScannableAtom) && (n.kind.Set? || n.kind.Prefixed? || n.kind.Atomic?)
    ensures FlatText(n) != [] && !IsDelimiter(FlatText(n)[0]) && FlatText(n)[0] != ';'
  {
    hide SpellAll, FlatItems, AtomText;
    BareNode(n);
    var first := FlatNode(n)[0];
    SpellConcat([first], FlatNode(n)[1..]);
    SpellOne(first);
    assert [first] + FlatNode(n)[1..] == FlatNode(n);
    if n.kind.Atomic? {
      FirstOfAtom(n.kind.atom);
    } else if n.kind.Prefixed? {
      PrefixQuiet(n.kind.prefix);
    }
  }

  lemma FirstOfAtom(a: Atom)
    requires ScannableAtom(a)
    ensures AtomText(a) != [] && !IsDelimiter(AtomText(a)[0]) && AtomText(a)[0] != ';'
  {
    if !a.Char? && !a.Str? { AtomTextPlain(a); }
  }

  /** A printed node starts and ends with characters that are not white space. */
  lemma TextEnds(n: Node)
    requires CommentFree(n) && AllAtoms(n, ScannableAtom)
    ensures var t := FlatText(n); t != [] && !IsWhite(t[0]) && !IsWhite(t[|t| - 1])
  {
    hide SpellAll, FlatNode, Origin, IsWhite;
    var ts := FlatNode(n);
    NodeOrigins(n, ScannableAtom);
    TokEnds(ts[0]);
    TokEnds(ts[|ts| - 1]);
    SpellConcat([ts[0]], ts[1..]);
    SpellOne(ts[0]);
    assert [ts[0]] + ts[1..] == ts;
    SpellConcat(ts[..|ts| - 1], [ts[|ts| - 1]]);
    SpellOne(ts[|ts| - 1]);
    assert ts[..|ts| - 1] + [ts[|ts| - 1]] == ts;
  }

  lemma TokEnds(t: Tok)
    requires t != Gap && Origin(t, ScannableAtom)
    ensures var s := Spell(t); s != [] && !IsWhite(s[0]) && !IsWhite(s[|s| - 1])
  {
    hide AtomText;
    if FromAtom(t, ScannableAtom) {
      var a :| ScannableAtom(a) && t == AtomTok(a);
      AtomEnds(a);
    } else {
      PunctuationEnds(t.text);
    }
  }

  lemma PunctuationEnds(s: string)
    requires IsPunctuation(s)
    ensures s != [] && !IsWhite(s[0]) && !IsWhite(s[|s| - 1])
  {
  }

  lemma AtomEnds(a: Atom)
    requires ScannableAtom(a)
    ensures var s := AtomText(a); s != [] && !IsWhite(s[0]) && !IsWhite(s[|s| - 1])
  {
    hide Numeral, Escape;
    if !a.Char? && !a.Str? { AtomTextPlain(a); }
  }
}
