/**
 * The front and back end shared by the transaction formatters: the tokenizer
 * that turns decoder output lines (`i2c-1: Address write: 59`) into annotation
 * values (`Address write: 59`), and the numbered, capped listing the I2C and
 * SPI formatters print their transactions in.
 */
module Annotations {
  import opened PyText
  import opened Padding

  // ---------------------------------------------------------------------
  // Tokenizer
  // ---------------------------------------------------------------------

  /** What one output line contributes: the text after the first `": "` of the
      stripped line, when there is such text. */
  function TokenOf(line: string): (r: seq<string>)
    ensures |r| <= 1
    ensures r != [] ==> r[0] != "" && r[0] == After(Strip(line), ": ")
    ensures r == [] <==> After(Strip(line), ": ") == ""
  {
    var t := Strip(line);
    if t == [] then []
    else
      var value := After(t, ": ");
      if value != [] then [value] else []
  }

  /** The annotation values of a list of lines, in line order. */
  function TokensOf(lines: seq<string>): seq<string> {
    if lines == [] then []
    else TokensOf(lines[..|lines| - 1]) + TokenOf(lines[|lines| - 1])
  }

  /** `_parse_annotations`: one pass over the stripped text's lines. */
  method ParseAnnotations(raw: string) returns (anns: seq<string>)
    ensures anns == TokensOf(Lines(raw))
  {
    anns := TokenizeLines(Lines(raw));
  }

  method TokenizeLines(lines: seq<string>) returns (anns: seq<string>)
    ensures anns == TokensOf(lines)
  {
    anns := [];
    var i := 0;
    while i < |lines|
      invariant 0 <= i <= |lines|
      invariant anns == TokensOf(lines[..i])
    {
      assert lines[..i + 1][..i] == lines[..i];
      assert TokensOf(lines[..i + 1]) == TokensOf(lines[..i]) + TokenOf(lines[i]);
      var line := Strip(lines[i]);
      if line != [] {
        var value := After(line, ": ");
        if value != [] {
          assert TokenOf(lines[i]) == [value];
          anns := anns + [value];
        } else {
          assert TokenOf(lines[i]) == [];
        }
      } else {
        assert TokenOf(lines[i]) == [];
      }
      i := i + 1;
    }
    assert lines[..i] == lines;
  }

  /** Tokenizing is line by line: the tokens of two blocks of lines are the
      tokens of the first followed by those of the second. */
  lemma {:induction false} TokensOfAppend(a: seq<string>, b: seq<string>)
    ensures TokensOf(a + b) == TokensOf(a) + TokensOf(b)
    decreases |b|
  {
    if b == [] {
      assert a + b == a;
    } else {
      var b' := b[..|b| - 1];
      var last := b[|b| - 1];
      assert (a + b)[..|a + b| - 1] == a + b';
      assert (a + b)[|a + b| - 1] == last;
      TokensOfAppend(a, b');
      AppendAssoc(TokensOf(a), TokensOf(b'), TokenOf(last));
    }
  }

  /** Every token is non-empty and is the remainder after `": "` of some line;
      there are never more tokens than lines. */
  lemma {:induction false} TokensFromLines(lines: seq<string>)
    ensures |TokensOf(lines)| <= |lines|
    ensures forall t :: t in TokensOf(lines) ==>
              t != "" && exists l :: l in lines && t == After(Strip(l), ": ")
  {
    if lines != [] {
      var init := lines[..|lines| - 1];
      TokensFromLines(init);
      forall t | t in TokensOf(lines)
        ensures t != "" && exists l :: l in lines && t == After(Strip(l), ": ")
      {
        if t in TokensOf(init) {
          var l :| l in init && t == After(Strip(l), ": ");
          assert l in lines;
        } else {
          assert lines[|lines| - 1] in lines;
        }
      }
    }
  }

  /** A line whose stripped text is `prefix: value` yields exactly `value`,
      when the prefix has no `": "` of its own. */
  lemma TokenOfDecoderLine(prefix: string, value: string)
    requires !Contains(prefix, ": ") && value != ""
    requires Strip(prefix + ": " + value) == prefix + ": " + value
    ensures TokenOf(prefix + ": " + value) == [value]
  {
    var s := prefix + ": " + value;
    var head := prefix + ": ";
    assert s == head + value;
    ConcatEnds(head, value);
    assert OccursAt(head, ": ", |prefix|) by {
      assert head[|prefix|..|prefix| + 2] == ": ";
    }
    forall j: nat | j < |prefix|
      ensures !OccursAt(head, ": ", j)
    {
      if j + 2 <= |prefix| {
        assert prefix[j..j + 2] == head[j..j + 2];
        assert !OccursAt(prefix, ": ", j);
      } else {
        assert head[j + 1] == ':';
      }
    }
    AfterPrefix(s, head, ": ");
  }

  // ---------------------------------------------------------------------
  // Numbered, capped listing
  // ---------------------------------------------------------------------

  /** `f"#{n:03d}  {item}"`. */
  function NumberedLine(n: nat, item: string): string {
    "#" + Pad3(n) + "  " + item
  }

  function MoreNote(hidden: int, noun: string): string {
    "\n... (" + IntToString(hidden) + " more " + noun + ")"
  }

  /**
   * The listing of the transaction formatters: a header and a blank line, the
   * first `maxItems` items (`items[:maxItems]`) numbered from `#001`, and a
   * note naming how many more there are exactly when there are more items
   * than `maxItems`.
   */
  function Listing(header: string, items: seq<string>, maxItems: int, noun: string): (r: seq<string>)
    ensures var shown := PyPrefix(items, maxItems);
            && |r| == 2 + |shown| + (if |items| > maxItems then 1 else 0)
            && r[0] == header && r[1] == ""
            && (forall i :: 0 <= i < |shown| ==> r[2 + i] == NumberedLine(i + 1, items[i]))
    ensures |items| > maxItems <==> r[|r| - 1] == MoreNote(|items| - maxItems, noun)
  {
    var shown := PyPrefix(items, maxItems);
    var numbered := seq(|shown|, i requires 0 <= i < |shown| => NumberedLine(i + 1, shown[i]));
    var r := [header, ""] + numbered + (if |items| > maxItems then [MoreNote(|items| - maxItems, noun)] else []);
    MoreNoteStart(|items| - maxItems, noun);
    ListingLastLine(header, shown, numbered, r, |items| > maxItems, MoreNote(|items| - maxItems, noun));
    r
  }

  /** Without the note, the last line of a listing is a numbered line or the
      blank line, neither of which begins with a line break as the note does. */
  lemma ListingLastLine(header: string, shown: seq<string>, numbered: seq<string>, r: seq<string>,
                        truncated: bool, note: string)
    requires |numbered| == |shown|
    requires forall i :: 0 <= i < |shown| ==> numbered[i] == NumberedLine(i + 1, shown[i])
    requires r == [header, ""] + numbered + (if truncated then [note] else [])
    requires note != "" && note[0] == '\n'
    ensures truncated <==> r[|r| - 1] == note
  {
    if !truncated {
      if numbered == [] {
        assert r[|r| - 1] == "";
      } else {
        var k := |numbered| - 1;
        assert r[|r| - 1] == NumberedLine(k + 1, shown[k]);
        ConcatEnds("#", Pad3(k + 1) + "  " + shown[k]);
        assert "#" + Pad3(k + 1) + "  " + shown[k] == "#" + (Pad3(k + 1) + "  " + shown[k]);
      }
    }
  }

  lemma MoreNoteStart(hidden: int, noun: string)
    ensures MoreNote(hidden, noun) != "" && MoreNote(hidden, noun)[0] == '\n'
  {
    var head := "\n... (";
    assert head[0] == '\n';
  }

  /** The text of a listing begins with its header. */
  lemma ListingText(header: string, lines: seq<string>)
    requires |lines| >= 2 && lines[0] == header
    ensures StartsWith(Join(lines, "\n"), header)
    ensures header != [] ==> Join(lines, "\n")[0] == header[0]
  {
    var rest := lines[1..];
    assert lines == [header] + rest;
    JoinCons(header, rest, "\n");
    assert header + "\n" + Join(rest, "\n") == header + ("\n" + Join(rest, "\n"));
    ConcatEnds(header, "\n" + Join(rest, "\n"));
  }

  /** The loop the I2C and SPI formatters print their listing with. */
  method BuildListing(header: string, items: seq<string>, maxItems: int, noun: string) returns (lines: seq<string>)
    ensures lines == Listing(header, items, maxItems, noun)
  {
    var shown := PyPrefix(items, maxItems);
    lines := [header, ""];
    var i := 0;
    while i < |shown|
      invariant 0 <= i <= |shown|
      invariant lines == [header, ""] + seq(i, k requires 0 <= k < i => NumberedLine(k + 1, shown[k]))
    {
      lines := lines + [NumberedLine(i + 1, shown[i])];
      i := i + 1;
    }
    if |items| > maxItems {
      lines := lines + [MoreNote(|items| - maxItems, noun)];
    }
  }

  // ---------------------------------------------------------------------
  // Splitting at boundary annotations
  // ---------------------------------------------------------------------

  /** The runs of annotations between boundary annotations (which belong to
      no run); there is always one run more than there are boundaries. */
  function Pieces<T>(xs: seq<T>, cut: T -> bool): (p: seq<seq<T>>)
    ensures |p| >= 1
  {
    if xs == [] then [[]]
    else
      var p := Pieces(xs[..|xs| - 1], cut);
      var x := xs[|xs| - 1];
      if cut(x) then p + [[]] else p[..|p| - 1] + [p[|p| - 1] + [x]]
  }

  /** No run holds a boundary, and there is one run more than there are
      boundaries. */
  lemma {:induction false} PiecesPartition<T>(anns: seq<T>, cut: T -> bool)
    ensures forall q, a :: q in Pieces(anns, cut) && a in q ==> !cut(a)
    ensures |Pieces(anns, cut)| == 1 + |set i | 0 <= i < |anns| && cut(anns[i])|
  {
    if anns != [] {
      var init := anns[..|anns| - 1];
      var a := anns[|anns| - 1];
      PiecesPartition(init, cut);
      var p := Pieces(init, cut);
      var cuts := set i | 0 <= i < |init| && cut(init[i]);
      var cuts' := set i | 0 <= i < |anns| && cut(anns[i]);
      if cut(a) {
        assert cuts' == cuts + {|init|};
      } else {
        assert cuts' == cuts;
        forall q, b | q in Pieces(anns, cut) && b in q ensures !cut(b) {
          if q != p[|p| - 1] + [a] {
            assert q in p;
          } else if b != a {
            assert b in p[|p| - 1];
            assert p[|p| - 1] in p;
          }
        }
      }
    }
  }

  function Last<T>(s: seq<T>): T
    requires s != []
  {
    s[|s| - 1]
  }

  /** An annotation that is no boundary extends the last run and leaves the
      earlier runs as they were. */
  lemma PiecesExtend<T>(xs: seq<T>, x: T, cut: T -> bool)
    requires !cut(x)
    ensures Pieces(xs + [x], cut) == Pieces(xs, cut)[..|Pieces(xs, cut)| - 1] + [Last(Pieces(xs, cut)) + [x]]
  {
    var ys := xs + [x];
    assert ys[..|ys| - 1] == xs;
  }

  /** A boundary closes the last run and opens an empty one. */
  lemma PiecesCut<T>(xs: seq<T>, x: T, cut: T -> bool)
    requires cut(x)
    ensures Pieces(xs + [x], cut) == Pieces(xs, cut) + [[]]
  {
    var ys := xs + [x];
    assert ys[..|ys| - 1] == xs;
  }
}
