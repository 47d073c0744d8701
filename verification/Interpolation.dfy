/**
 String interpolation (crates/nexl-eval/src/eval.rs, `eval_string_atom` and `find_interpolation_end`): how a string
 literal is cut into characters and embedded expressions. The reader is a partial function from text to forms.
*/
module Interpolation {
  import opened Basics
  import opened Ast
  import opened FlatPrinter
  import opened LayoutTheorems
  import opened DelimiterScanners

  type Reader = string -> Option<seq<Node>>

  function TrimStart(s: string): string {
    if s != [] && IsWhite(s[0]) then TrimStart(s[1..]) else s
  }

  function TrimEnd(s: string): string {
    if s != [] && IsWhite(s[|s| - 1]) then TrimEnd(s[..|s| - 1]) else s
  }

  /** `str::trim`. */
  function Trim(s: string): string {
    TrimEnd(TrimStart(s))
  }

  /** The `}` at `i` ends the interpolation whose text starts at `start`. */
  predicate IsEnd(s: string, start: nat, i: nat) {
    start <= i < |s| && s[i] == '}' &&
    var st := ScanAll(START, s[start..i]);
    !st.inString && Closed(st)
  }

  /** The first end at or after `i`. */
  function FindEnd(s: string, start: nat, i: nat): (end: Option<nat>)
    requires start <= i <= |s|
    ensures end.Some? ==>
            i <= end.value && IsEnd(s, start, end.value) && forall j | i <= j < end.value :: !IsEnd(s, start, j)
    ensures end.None? ==> forall j | i <= j < |s| :: !IsEnd(s, start, j)
    decreases |s| - i
  {
    if i == |s| then None else if IsEnd(s, start, i) then Some(i) else FindEnd(s, start, i + 1)
  }

  /** `find_interpolation_end`, with its own counters and flags. */
  method FindInterpolationEnd(s: string, start: nat) returns (end: Option<nat>)
    requires start <= |s|
    ensures end == FindEnd(s, start, start)
  {
    hide ScanAll, ScanStep;
    var paren, bracket, brace, inString, escaped := 0, 0, 0, false, false;
    ScanNothing(START);
    assert s[start..start] == [];
    for i := start to |s|
      invariant ScanAll(START, s[start..i]) == Scan(paren, bracket, brace, inString, escaped)
      invariant FindEnd(s, start, start) == FindEnd(s, start, i)
    {
      var ch := s[i];
      ghost var st := ScanAll(START, s[start..i]);
      assert s[start..i + 1] == s[start..i] + [ch];
      ScanConcat(START, s[start..i], [ch]);
      ScanOne(st, ch);
      ScanCases(st, ch);
      if inString {
        if escaped {
          escaped := false;
        } else if ch == '\\' {
          escaped := true;
        } else if ch == '"' {
          inString := false;
        }
      } else {
        match ch
        case '"' => inString := true;
        case '(' => paren := paren + 1;
        case ')' => paren := paren - 1;
        case '[' => bracket := bracket + 1;
        case ']' => bracket := bracket - 1;
        case '{' => brace := brace + 1;
        case '}' =>
          if paren == 0 && bracket == 0 && brace == 0 {
            return Some(i);
          }
          brace := brace - 1;
        case _ =>
      }
    }
    end := None;
  }

  lemma ScanCases(st: Scan, c: char)
    ensures ScanStep(st, c) ==
            if st.inString then
              if st.escaped then st.(escaped := false)
              else if c == '\\' then st.(escaped := true)
              else if c == '"' then st.(inString := false)
              else st
            else if c == '"' then st.(inString := true)
            else if c == '(' then st.(paren := st.paren + 1)
            else if c == ')' then st.(paren := st.paren - 1)
            else if c == '[' then st.(bracket := st.bracket + 1)
            else if c == ']' then st.(bracket := st.bracket - 1)
            else if c == '{' then st.(brace := st.brace + 1)
            else if c == '}' then st.(brace := st.brace - 1)
            else st
  {
  }

  // ---------------------------------------------------------------------------------------------
  // Cutting a string literal into parts
  // ---------------------------------------------------------------------------------------------

  /** One step of the loop: literal text, or an expression to evaluate; then the position to go on from. */
  datatype Piece = Emit(text: string, next: nat) | Splice(form: Node, next: nat)

  function NextPiece(read: Reader, s: string, i: nat): (p: Piece)
    requires i < |s|
    ensures i < p.next <= |s|
  {
    if s[i] == '{' then
      if i + 1 < |s| && s[i + 1] == '{' then Emit("{", i + 2)
      else
        match FindEnd(s, i + 1, i + 1)
        case None => Emit("{", i + 1)
        case Some(end) =>
          var expr := s[i + 1..end];
          var forms := Forms(read, Trim(expr));
          if |forms| == 1 then Splice(forms[0], end + 1) else Emit("{" + expr + "}", end + 1)
    else if s[i] == '}' && i + 1 < |s| && s[i + 1] == '}' then Emit("}", i + 2)
    else Emit([s[i]], i + 1)
  }

  /** Blank and unreadable texts have no forms. */
  function Forms(read: Reader, text: string): seq<Node> {
    if text == "" then [] else read(text).GetOr([])
  }

  /** The cases of one round of the loop of `eval_string_atom`. */
  method ReadPiece(read: Reader, s: string, i: nat) returns (p: Piece)
    requires i < |s|
    ensures p == NextPiece(read, s, i)
  {
    hide FindEnd, Trim, Forms;
    if s[i] == '{' {
      if i + 1 < |s| && s[i + 1] == '{' {
        return Emit("{", i + 2);
      }
      var end := FindInterpolationEnd(s, i + 1);
      if end.None? {
        return Emit("{", i + 1);
      }
      var expr := s[i + 1..end.value];
      var forms := Forms(read, Trim(expr));
      p := if |forms| == 1 then Splice(forms[0], end.value + 1) else Emit("{" + expr + "}", end.value + 1);
    } else if s[i] == '}' {
      p := if i + 1 < |s| && s[i + 1] == '}' then Emit("}", i + 2) else Emit("}", i + 1);
    } else {
      p := Emit([s[i]], i + 1);
    }
  }

  datatype Part = Chr(c: char) | Val(form: Node)

  function Chars(s: string): (parts: seq<Part>)
    ensures |parts| == |s|
  {
    seq(|s|, i requires 0 <= i < |s| => Chr(s[i]))
  }

  function PieceParts(p: Piece): seq<Part> {
    match p
    case Emit(text, _) => Chars(text)
    case Splice(form, _) => [Val(form)]
  }

  /** The characters and expressions of the string from `i` on, in order. */
  function Parts(read: Reader, s: string, i: nat): seq<Part>
    requires i <= |s|
    decreases |s| - i
  {
    if i == |s| then [] else
    var p := NextPiece(read, s, i);
    PieceParts(p) + Parts(read, s, p.next)
  }

  // ---------------------------------------------------------------------------------------------
  // Templates
  // ---------------------------------------------------------------------------------------------

  datatype Segment = Lit(text: string) | Exp(form: Node)

  function EscapeBrace(c: char): string {
    if c == '{' then "{{" else if c == '}' then "}}" else [c]
  }

  /** Braces doubled. */
  function EscapeBraces(s: string): string {
    if s == [] then "" else EscapeBrace(s[0]) + EscapeBraces(s[1..])
  }

  /** A template as source text: escaped literals and printed expressions in braces. */
  function Template(segments: seq<Segment>): string {
    if segments == [] then "" else SegmentText(segments[0]) + Template(segments[1..])
  }

  function SegmentText(segment: Segment): string {
    match segment
    case Lit(text) => EscapeBraces(text)
    case Exp(form) => "{" + FlatText(form) + "}"
  }

  function SegmentParts(segment: Segment): seq<Part> {
    match segment
    case Lit(text) => Chars(text)
    case Exp(form) => [Val(form)]
  }

  function Intended(segments: seq<Segment>): seq<Part> {
    if segments == [] then [] else SegmentParts(segments[0]) + Intended(segments[1..])
  }

  /** A printed form that the reader reads back and that does not start like an escaped brace. */
  predicate Embeddable(read: Reader, form: Node) {
    CommentFree(form) && AllAtoms(form, ScannableAtom) &&
    FlatText(form) != [] && FlatText(form)[0] != '{' && read(FlatText(form)) == Some([form])
  }

  predicate WellFormed(read: Reader, segments: seq<Segment>) {
    forall i | 0 <= i < |segments| :: segments[i].Exp? ==> Embeddable(read, segments[i].form)
  }

  lemma TrimNothing(s: string)
    requires s != [] && !IsWhite(s[0]) && !IsWhite(s[|s| - 1])
    ensures Trim(s) == s
  {
    hide IsWhite;
  }

  /** `find_interpolation_end` stops exactly at the end of a self-contained text. */
  lemma EndOfEnclosed(s: string, start: nat, t: string)
    requires start + |t| < |s| && s[start..start + |t|] == t && s[start + |t|] == '}' && Enclosed(START, t)
    ensures FindEnd(s, start, start) == Some(start + |t|)
  {
    hide ScanAll, ScanStep, FindEnd;
    assert IsEnd(s, start, start + |t|);
    forall j | start <= j < start + |t|
      ensures !IsEnd(s, start, j)
    {
      var k := j - start;
      assert s[start..j] == t[..k] && s[start..j + 1] == t[..k + 1] == t[..k] + [t[k]];
      var st := ScanAll(START, t[..k]);
      ScanConcat(START, t[..k], [t[k]]);
      ScanOne(st, t[k]);
      ScanCases(st, t[k]);
      assert Above(ScanAll(START, t[..k + 1]), START);
    }
    var end := FindEnd(s, start, start);
    FindEndMeans(s, start);
  }

  lemma FindEndMeans(s: string, start: nat)
    requires start <= |s|
    ensures match FindEnd(s, start, start)
            case Some(end) => start <= end && IsEnd(s, start, end) && forall j | start <= j < end :: !IsEnd(s, start, j)
            case None => forall j | start <= j < |s| :: !IsEnd(s, start, j)
  {
  }

  /** `t` stands in `s` at position `i`. */
  predicate At(s: string, i: nat, t: string) {
    i + |t| <= |s| && s[i..i + |t|] == t
  }

  lemma AtConcat(s: string, i: nat, a: string, b: string)
    requires At(s, i, a + b)
    ensures At(s, i, a) && At(s, i + |a|, b)
  {
    var t := a + b;
    assert s[i..i + |a|] == t[..|a|] && s[i + |a|..i + |t|] == t[|a|..];
  }

  lemma AtLength(s: string, i: nat, t: string)
    requires At(s, i, t)
    ensures i + |t| <= |s| && s[i..i + |t|] == t
  {
  }

  lemma AtChar(s: string, i: nat, t: string, k: nat)
    requires At(s, i, t) && k < |t|
    ensures i + k < |s| && s[i + k] == t[k]
  {
    assert s[i..i + |t|][k] == s[i + k];
  }

  lemma PartsStep(read: Reader, s: string, i: nat)
    requires i < |s|
    ensures var p := NextPiece(read, s, i); Parts(read, s, i) == PieceParts(p) + Parts(read, s, p.next)
  {
    hide NextPiece, PieceParts;
  }

  lemma CharParts(read: Reader, s: string, i: nat, c: char)
    requires At(s, i, EscapeBrace(c))
    ensures i + |EscapeBrace(c)| <= |s|
    ensures Parts(read, s, i) == [Chr(c)] + Parts(read, s, i + |EscapeBrace(c)|)
  {
    hide FindEnd, At, Parts, EscapeBrace;
    var t := EscapeBrace(c);
    EscapeBraceCases(c);
    AtChar(s, i, t, 0);
    if |t| == 2 { AtChar(s, i, t, 1); }
    assert NextPiece(read, s, i) == Emit([c], i + |t|);
    assert Chars([c]) == [Chr(c)];
    PartsStep(read, s, i);
  }

  lemma EscapeBraceCases(c: char)
    ensures if c == '{' || c == '}' then EscapeBrace(c) == [c, c] else EscapeBrace(c) == [c]
  {
  }

  lemma {:induction false} LiteralParts(read: Reader, s: string, i: nat, lit: string)
    requires At(s, i, EscapeBraces(lit))
    ensures Parts(read, s, i) == Chars(lit) + Parts(read, s, i + |EscapeBraces(lit)|)
    decreases |lit|
  {
    hide Parts, EscapeBrace, At;
    AtLength(s, i, EscapeBraces(lit));
    if lit == [] {
      assert Chars(lit) + Parts(read, s, i) == Parts(read, s, i);
    } else {
      AtConcat(s, i, EscapeBrace(lit[0]), EscapeBraces(lit[1..]));
      AtLength(s, i, EscapeBrace(lit[0]));
      CharParts(read, s, i, lit[0]);
      LiteralParts(read, s, i + |EscapeBrace(lit[0])|, lit[1..]);
      assert Chars(lit) == [Chr(lit[0])] + Chars(lit[1..]);
    }
  }

  lemma ExpressionParts(read: Reader, s: string, i: nat, form: Node)
    requires Embeddable(read, form) && At(s, i, "{" + FlatText(form) + "}")
    ensures Parts(read, s, i) == [Val(form)] + Parts(read, s, i + |FlatText(form)| + 2)
  {
    hide FindEnd, FlatText, Enclosed, EnclosedToks, FlatNode, SpellAll;
    var t := FlatText(form);
    AtConcat(s, i, "{" + t, "}");
    AtConcat(s, i, "{", t);
    AtLength(s, i + 1, t);
    AtChar(s, i, "{", 0);
    AtChar(s, i + 1, t, 0);
    AtChar(s, i + 1 + |t|, "}", 0);
    hide At, Parts;
    FormEnclosed(form);
    EndOfEnclosed(s, i + 1, t);
    TextEnds(form);
    TrimNothing(t);
    assert NextPiece(read, s, i) == Splice(form, i + |t| + 2);
    PartsStep(read, s, i);
  }

  lemma FormEnclosed(form: Node)
    requires CommentFree(form) && AllAtoms(form, ScannableAtom)
    ensures Enclosed(START, FlatText(form))
  {
    hide Enclosed;
    NodeEnclosed(START, form);
  }

  /** Cutting a template apart gives back its literals and its expressions. */
  lemma {:induction false} TemplateParts(read: Reader, s: string, i: nat, segments: seq<Segment>)
    requires WellFormed(read, segments) && At(s, i, Template(segments)) && i + |Template(segments)| == |s|
    ensures Parts(read, s, i) == Intended(segments)
    decreases |segments|
  {
    hide Parts, SegmentText, SegmentParts, Embeddable, At;
    AtLength(s, i, Template(segments));
    if segments == [] {
      NoParts(read, s);
    } else {
      var first := segments[0];
      AtConcat(s, i, SegmentText(first), Template(segments[1..]));
      SegmentAt(read, s, i, first);
      TemplateParts(read, s, i + |SegmentText(first)|, segments[1..]);
    }
  }

  lemma SegmentAt(read: Reader, s: string, i: nat, segment: Segment)
    requires (segment.Exp? ==> Embeddable(read, segment.form)) && At(s, i, SegmentText(segment))
    ensures Parts(read, s, i) == SegmentParts(segment) + Parts(read, s, i + |SegmentText(segment)|)
  {
    hide Parts, FlatText, EscapeBraces, Embeddable, At;
    match segment
    case Lit(text) => LiteralParts(read, s, i, text);
    case Exp(form) => ExpressionParts(read, s, i, form);
  }

  lemma NoParts(read: Reader, s: string)
    ensures Parts(read, s, |s|) == []
  {
  }

  /** The same for a whole string literal. */
  lemma InterpolationInvertsTemplate(read: Reader, segments: seq<Segment>)
    requires WellFormed(read, segments)
    ensures Parts(read, Template(segments), 0) == Intended(segments)
  {
    hide Parts, Template, WellFormed;
    TemplateParts(read, Template(segments), 0, segments);
  }

  /** The fast path: without braces the string is its own characters. */
  lemma {:induction false} NoBraces(read: Reader, s: string, i: nat)
    requires i <= |s| && '{' !in s && '}' !in s
    ensures Parts(read, s, i) == Chars(s[i..])
    decreases |s| - i
  {
    hide FindEnd;
    if i < |s| {
      NoBraces(read, s, i + 1);
      assert s[i..] == [s[i]] + s[i + 1..];
      assert Chars(s[i..]) == Chars([s[i]]) + Chars(s[i + 1..]);
    } else {
      assert s[i..] == [];
    }
  }
}
