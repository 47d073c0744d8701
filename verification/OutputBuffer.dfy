/** The `&mut String` every `write_*` function of crates/nexl-ast/src/printer.rs appends to. */
module OutputBuffer {
  import opened FlatPrinter

  /** One more white-space character: it opens a gap or widens the one just opened. */
  function Spaced(ts: seq<Tok>): seq<Tok> {
    if ts != [] && Open(ts[|ts| - 1]) then ts else ts + [Gap]
  }

  predicate IsBlank(s: string) {
    s != [] && forall i | 0 <= i < |s| :: s[i] == ' ' || s[i] == '\n'
  }

  predicate AllBlank(s: string) {
    s == [] || IsBlank(s)
  }

  /**
   `s` is a way of writing `t`: gaps may be any blanks, newline strings may have any indentation, and a comment on a
   line of its own may be indented and followed by the indentation of the next line.
  */
  ghost predicate Spells(t: Tok, s: string) {
    match t
    case Gap => IsBlank(s)
    case Block(value) => exists indent: nat :: s == MultilineText(value, indent)
    case LeadComment(comment) =>
      exists before, after :: AllBlank(before) && AllBlank(after) && s == before + (";" + comment + "\n") + after
    case _ => s == Spell(t)
  }

  function Join(parts: seq<string>): string {
    if parts == [] then "" else Join(parts[..|parts| - 1]) + parts[|parts| - 1]
  }

  /** `text` is a rendering of the token sequence `toks`. */
  ghost predicate Renders(toks: seq<Tok>, parts: seq<string>, text: string) {
    && |toks| == |parts|
    && text == Join(parts)
    && forall i | 0 <= i < |toks| :: Spells(toks[i], parts[i])
  }

  /** White space after an open token widens it. */
  lemma StillSpells(t: Tok, s: string, c: char)
    requires Open(t) && Spells(t, s) && (c == ' ' || c == '\n')
    ensures Spells(t, s + [c])
  {
    if t.LeadComment? {
      var line := ";" + t.comment + "\n";
      var before, after :| AllBlank(before) && AllBlank(after) && s == before + line + after;
      assert AllBlank(after + [c]) && s + [c] == before + line + (after + [c]);
    }
  }

  lemma LeadSpells(comment: string, before: string)
    requires AllBlank(before)
    ensures Spells(LeadComment(comment), before + (";" + comment + "\n"))
  {
    var line := ";" + comment + "\n";
    assert before + line == before + line + "" && AllBlank("");
  }

  lemma GapSpells(c: char)
    requires c == ' ' || c == '\n'
    ensures Spells(Gap, [c])
  {
  }

  class Buffer {
    var text: string
    ghost var toks: seq<Tok>
    ghost var parts: seq<string>

    ghost predicate Valid()
      reads this
    {
      Renders(toks, parts, text)
    }

    constructor ()
      ensures Valid() && text == "" && toks == []
    {
      text, toks, parts := "", [], [];
    }

    method PushWhite(c: char)
      requires Valid()
      requires c == ' ' || c == '\n'
      modifies this
      ensures Valid() && text == old(text) + [c] && toks == Spaced(old(toks))
    {
      hide Spells;
      ghost var was := parts;
      text := text + [c];
      if toks != [] && Open(toks[|toks| - 1]) {
        StillSpells(toks[|toks| - 1], parts[|parts| - 1], c);
        parts := parts[..|parts| - 1] + [parts[|parts| - 1] + [c]];
        assert parts[..|parts| - 1] == was[..|was| - 1];
      } else {
        GapSpells(c);
        toks, parts := toks + [Gap], parts + [[c]];
        assert parts[..|parts| - 1] == was;
      }
    }

    method PushIndent(n: nat)
      requires Valid()
      modifies this
      ensures Valid() && toks == if n == 0 then old(toks) else Spaced(old(toks))
      ensures text == old(text) + Spaces(n)
    {
      for i := 0 to n
        invariant Valid() && toks == if i == 0 then old(toks) else Spaced(old(toks))
        invariant text == old(text) + Spaces(i)
      {
        PushWhite(' ');
        assert Spaces(i) + [' '] == Spaces(i + 1);
      }
    }

    /** A line break and the indentation of the next line. */
    method NewLine(indent: nat)
      requires Valid()
      modifies this
      ensures Valid() && toks == Spaced(old(toks))
      ensures text == old(text) + "\n" + Spaces(indent)
    {
      PushWhite('\n');
      PushIndent(indent);
    }

    /** Alignment padding before the space that separates two columns. */
    method PadGap(padding: nat)
      requires Valid()
      modifies this
      ensures Valid() && toks == Spaced(old(toks))
      ensures text == old(text) + Spaces(padding) + " "
    {
      PushIndent(padding);
      PushWhite(' ');
    }

    /** Any token that is not a gap, in the spelling `s`. */
    method PushTok(ghost t: Tok, s: string)
      requires Valid() && t != Gap && Spells(t, s)
      modifies this
      ensures Valid() && text == old(text) + s && toks == old(toks) + [t]
    {
      hide Spells;
      text := text + s;
      toks, parts := toks + [t], parts + [s];
      assert parts[..|parts| - 1] == old(parts);
    }

    /** A comment on a line of its own. */
    method PushLead(indent: nat, comment: string)
      requires Valid()
      modifies this
      ensures Valid() && toks == old(toks) + [LeadComment(comment)]
      ensures text == old(text) + Spaces(indent) + ";" + comment + "\n"
    {
      LeadSpells(comment, Spaces(indent));
      PushTok(LeadComment(comment), Spaces(indent) + (";" + comment + "\n"));
    }

    method PushWord(s: string)
      requires Valid()
      modifies this
      ensures Valid() && text == old(text) + s && toks == old(toks) + [Word(s)]
    {
      PushTok(Word(s), s);
    }
  }
}
