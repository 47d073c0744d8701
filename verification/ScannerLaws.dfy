/**
 What the scanners of `DelimiterScanners` and `Interpolation` do with texts that no printer wrote: comments, string
 literals and unmatched brackets (crates/nexl-cli/src/main.rs, `delimiters_balanced`), and braces that open or close no
 readable expression (crates/nexl-eval/src/eval.rs, `eval_string_atom`).
*/
module ScannerLaws {
  import opened Basics
  import opened Ast
  import opened FlatPrinter
  import opened DelimiterScanners
  import I = Interpolation
  import B = ReadBack
  import R = Reader

  // ---------------------------------------------------------------------------------------------
  // The completeness check of the REPL
  // ---------------------------------------------------------------------------------------------

  function ReplFrom(r: Repl, s: string): Repl {
    if s == [] then r else ReplStep(ReplFrom(r, s[..|s| - 1]), s[|s| - 1])
  }

  lemma {:induction false} ReplConcat(a: string, b: string)
    ensures ReplAll(a + b) == ReplFrom(ReplAll(a), b)
  {
    hide ReplStep;
    if b == [] {
      assert a + b == a;
    } else {
      assert (a + b)[..|a + b| - 1] == a + b[..|b| - 1];
      ReplConcat(a, b[..|b| - 1]);
    }
  }

  /** Outside strings and comments, and no bracket closed that was not open. */
  predicate Outside(s: string) {
    var r := ReplAll(s);
    !r.inComment && !r.stopped && Clean(r.scan)
  }

  lemma {:induction false} CommentRun(r: Repl, c: string)
    requires r.inComment && !r.stopped && '\n' !in c
    ensures ReplFrom(r, c) == r
  {
    if c != [] { CommentRun(r, c[..|c| - 1]); }
  }

  /** A comment is like the line break that ends it. */
  lemma CommentSkipped(a: string, comment: string, b: string)
    requires Outside(a) && '\n' !in comment && StaysOpen(ReplAll(a).scan)
    ensures Accepts(a + ";" + comment + "\n" + b) <==> Accepts(a + "\n" + b)
  {
    hide ReplAll, ReplFrom, Accepts;
    var r := ReplAll(a);
    CommentState(r, comment);
    ReplConcat(a, ";" + comment + "\n");
    ReplConcat(a, "\n");
    assert a + (";" + comment + "\n") == a + ";" + comment + "\n";
    ReplConcat(a + ";" + comment + "\n", b);
    ReplConcat(a + "\n", b);
    SameAnswer(a + ";" + comment + "\n" + b, a + "\n" + b);
  }

  /** No counter is below zero. */
  predicate StaysOpen(st: Scan) {
    st.paren >= 0 && st.bracket >= 0 && st.brace >= 0
  }

  lemma SameAnswer(s: string, t: string)
    requires ReplAll(s) == ReplAll(t)
    ensures Accepts(s) <==> Accepts(t)
  {
  }

  lemma CommentState(r: Repl, comment: string)
    requires !r.inComment && !r.stopped && Clean(r.scan) && '\n' !in comment && StaysOpen(r.scan)
    ensures ReplFrom(r, ";" + comment + "\n") == r && ReplFrom(r, "\n") == r
  {
    var inside := r.(inComment := true);
    assert "\n"[..0] == [] && ";"[..0] == [];
    assert ReplFrom(r, ";") == inside;
    CommentRun(inside, comment);
    FromConcat(r, ";", comment);
    var t := ";" + comment + "\n";
    assert t[..|t| - 1] == ";" + comment;
  }

  lemma {:induction false} FromConcat(r: Repl, a: string, b: string)
    ensures ReplFrom(r, a + b) == ReplFrom(ReplFrom(r, a), b)
  {
    hide ReplStep;
    if b == [] {
      assert a + b == a;
    } else {
      assert (a + b)[..|a + b| - 1] == a + b[..|b| - 1];
      FromConcat(r, a, b[..|b| - 1]);
    }
  }

  /** What stands in a string literal does not matter. */
  lemma StringSkipped(a: string, text: string, b: string)
    requires Outside(a) && StaysOpen(ReplAll(a).scan)
    ensures Accepts(a + StrText(text) + b) <==> Accepts(a + b)
  {
    hide ReplAll, ReplFrom, Accepts, StrText;
    StringState(ReplAll(a), text);
    ReplConcat(a, StrText(text));
    ReplConcat(a + StrText(text), b);
    ReplConcat(a, b);
    SameAnswer(a + StrText(text) + b, a + b);
  }

  lemma StringState(r: Repl, text: string)
    requires !r.inComment && !r.stopped && Clean(r.scan) && StaysOpen(r.scan)
    ensures ReplFrom(r, StrText(text)) == r
  {
    hide Enclosed;
    StrEnclosed(r.scan, text);
    var t := StrText(text);
    EnclosedState(r, t, |t|);
    assert t[..|t|] == t;
    EnclosedEnds(r.scan, t);
  }

  lemma EnclosedEnds(st: Scan, t: string)
    requires Enclosed(st, t)
    ensures ScanAll(st, t) == st
  {
  }

  lemma {:induction false} EnclosedState(r: Repl, t: string, k: nat)
    requires !r.inComment && !r.stopped && StaysOpen(r.scan) && Enclosed(r.scan, t) && k <= |t|
    ensures ReplFrom(r, t[..k]) == r.(scan := ScanAll(r.scan, t[..k]))
    decreases k
  {
    hide ScanStep;
    if k > 0 {
      EnclosedState(r, t, k - 1);
      assert t[..k][..k - 1] == t[..k - 1];
      assert Above(ScanAll(r.scan, t[..k]), r.scan);
      assert ScanAll(r.scan, t[..k - 1]).inString || t[k - 1] != ';';
    } else {
      assert t[..0] == [];
    }
  }

  function Count(s: string, c: char): nat {
    if s == [] then 0 else Count(s[..|s| - 1], c) + if s[|s| - 1] == c then 1 else 0
  }

  /** Some bracket closes before it opens. */
  ghost predicate Overclosed(s: string) {
    exists k :: 0 <= k <= |s| && ClosedTooMany(s[..k])
  }

  predicate ClosedTooMany(s: string) {
    Count(s, ')') > Count(s, '(') || Count(s, ']') > Count(s, '[') || Count(s, '}') > Count(s, '{')
  }

  predicate Matched(s: string) {
    Count(s, ')') == Count(s, '(') && Count(s, ']') == Count(s, '[') && Count(s, '}') == Count(s, '{')
  }

  /**
   Without strings and comments, a text is complete when every bracket is closed, or when one closes before it opens.
  */
  lemma BracketsCounted(s: string)
    requires '"' !in s && ';' !in s
    ensures Accepts(s) <==> Overclosed(s) || Matched(s)
  {
    hide ReplStep, Count;
    Counted(s);
    if Overclosed(s) {
      var k :| 0 <= k <= |s| && ClosedTooMany(s[..k]);
      assert ReplAll(s[..k]).stopped by { Counted(s[..k]); PrefixPlain(s, k); }
      StoppedStays(s, k);
    }
    if ReplAll(s).stopped { StoppedBy(s); }
  }

  lemma PrefixPlain(s: string, k: nat)
    requires '"' !in s && ';' !in s && k <= |s|
    ensures '"' !in s[..k] && ';' !in s[..k]
  {
  }

  lemma {:induction false} Counted(s: string)
    requires '"' !in s && ';' !in s
    ensures var r := ReplAll(s);
            r.stopped ||
            (!ClosedTooMany(s) && !r.inComment && Clean(r.scan) && r.scan.paren == Count(s, '(') - Count(s, ')') &&
             r.scan.bracket == Count(s, '[') - Count(s, ']') && r.scan.brace == Count(s, '{') - Count(s, '}'))
  {
    if s != [] {
      PrefixPlain(s, |s| - 1);
      Counted(s[..|s| - 1]);
    }
  }

  lemma {:induction false} StoppedBy(s: string)
    requires '"' !in s && ';' !in s && ReplAll(s).stopped
    ensures Overclosed(s)
  {
    var init := s[..|s| - 1];
    PrefixPlain(s, |s| - 1);
    if ReplAll(init).stopped {
      StoppedBy(init);
      var k :| 0 <= k <= |init| && ClosedTooMany(init[..k]);
      assert s[..k] == init[..k];
    } else {
      Counted(init);
      assert s[..|s|] == s && ClosedTooMany(s[..|s|]);
    }
  }

  // ---------------------------------------------------------------------------------------------
  // Braces in string literals
  // ---------------------------------------------------------------------------------------------

  /** Without a closing brace, opening braces that stand alone are themselves. */
  lemma {:induction false} UnclosedBraces(read: I.Reader, s: string, i: nat)
    requires i <= |s| && '}' !in s && forall k | 0 <= k < |s| - 1 :: !(s[k] == '{' && s[k + 1] == '{')
    ensures I.Parts(read, s, i) == I.Chars(s[i..])
    decreases |s| - i
  {
    if i < |s| {
      UnclosedBraces(read, s, i + 1);
      NeverEnds(s, i + 1);
      assert I.NextPiece(read, s, i) == I.Emit([s[i]], i + 1) by { hide I.FindEnd; }
      OneChar(read, s, i);
    } else {
      assert s[i..] == [];
    }
  }

  lemma NeverEnds(s: string, start: nat)
    requires start <= |s| && '}' !in s
    ensures I.FindEnd(s, start, start) == None
  {
    var end := I.FindEnd(s, start, start);
  }

  lemma OneChar(read: I.Reader, s: string, i: nat)
    requires i < |s| && I.NextPiece(read, s, i) == I.Emit([s[i]], i + 1)
    requires I.Parts(read, s, i + 1) == I.Chars(s[i + 1..])
    ensures I.Parts(read, s, i) == I.Chars(s[i..])
  {
    hide I.NextPiece;
    assert s[i..] == [s[i]] + s[i + 1..];
    assert I.Chars(s[i..]) == I.Chars([s[i]]) + I.Chars(s[i + 1..]);
  }

  /** Without an opening brace, closing braces that stand alone are themselves. */
  lemma {:induction false} UnopenedBraces(read: I.Reader, s: string, i: nat)
    requires i <= |s| && '{' !in s && forall k | 0 <= k < |s| - 1 :: !(s[k] == '}' && s[k + 1] == '}')
    ensures I.Parts(read, s, i) == I.Chars(s[i..])
    decreases |s| - i
  {
    if i < |s| {
      UnopenedBraces(read, s, i + 1);
      assert I.NextPiece(read, s, i) == I.Emit([s[i]], i + 1) by { hide I.FindEnd; }
      OneChar(read, s, i);
    } else {
      assert s[i..] == [];
    }
  }

  /** A text in braces that does not read as one form keeps its braces. */
  lemma UnreadableKept(read: I.Reader, text: string)
    requires Enclosed(START, text) && (text != [] ==> text[0] != '{')
    requires |I.Forms(read, I.Trim(text))| != 1
    ensures I.Parts(read, "{" + text + "}", 0) == I.Chars("{" + text + "}")
  {
    hide I.Trim, I.Forms, Enclosed, I.FindEnd;
    var s := "{" + text + "}";
    assert s[0] == '{' && s[1..1 + |text|] == text && s[1 + |text|] == '}';
    assert I.At(s, 1, text);
    I.EndOfEnclosed(s, 1, text);
    assert |s| > 1 && s[1] == (if text == [] then '}' else text[0]);
    assert I.NextPiece(read, s, 0) == I.Emit("{" + text + "}", |s|);
    hide I.NextPiece;
    assert I.Parts(read, s, |s|) == [];
    assert I.Chars(s) + [] == I.Chars(s);
  }

  /** Readable forms can be embedded in strings, when the reader is that of `Reader`. */
  lemma ReadableEmbeds(h: R.Host, form: Node)
    requires B.Readable(h, form) && CommentFree(form) && AllAtoms(form, ScannableAtom)
    requires FlatText(form) != [] && FlatText(form)[0] != '{'
    ensures I.Embeddable(text => R.Read(h, text), form)
  {
    hide R.Read, B.Spellable, B.PlacedItem, FlatText;
    B.PrintReadsBack(h, form);
  }
}
