/**
 * The `summarize_capture_data` of the `sigrok_mcp` package, over unlabelled
 * rows of bits (`10010011` or `1001 0011`): the first row fixes the channel
 * count, rows of any other width are skipped, and per channel the `1`s and
 * the changes between consecutive accepted rows are counted in arrays.
 */
module FixedWidthSummary {
  import opened Wrappers
  import opened PyText
  import opened ChannelStats

  const NoSampleLines := "No sample data to summarize."

  /** The row of one channel, `CH<index>`. */
  datatype ColumnStat = ColumnStat(index: nat, high: nat, edges: nat, activity: Activity)

  datatype RowSummary =
    | NoSamples
    | Unparsable(totalSamples: nat)
    | Summary(totalSamples: nat, numChannels: nat, columns: seq<ColumnStat>)

  /** A row without its spaces. */
  function RowBits(line: string): string {
    RemoveChar(line, ' ')
  }

  predicate Rectangular(rows: seq<string>, n: nat) {
    forall i :: 0 <= i < |rows| ==> |rows[i]| == n
  }

  /** The rows that are counted: those whose width is the channel count. */
  function Accepted(lines: seq<string>, n: nat): (rows: seq<string>)
    ensures Rectangular(rows, n) && |rows| <= |lines|
  {
    if lines == [] then []
    else
      var bits := RowBits(lines[|lines| - 1]);
      Accepted(lines[..|lines| - 1], n) + (if |bits| == n then [bits] else [])
  }

  /** The samples of one channel over the accepted rows. */
  function Column(rows: seq<string>, ch: nat): (col: string)
    requires forall i :: 0 <= i < |rows| ==> ch < |rows[i]|
    ensures |col| == |rows|
  {
    if rows == [] then [] else Column(rows[..|rows| - 1], ch) + [rows[|rows| - 1][ch]]
  }

  /** `prev_bits[ch]`: the channel's sample in the last accepted row. */
  function Previous(col: string): Option<char> {
    if col == [] then None else Some(col[|col| - 1])
  }

  /** The row of one channel; the activity compares the high count with the
      number of all lines, skipped ones included. */
  function ColumnStatOf(ch: nat, totalSamples: nat, col: string): ColumnStat {
    var high := CountChar(col, '1');
    var edges := Edges(col);
    ColumnStat(ch, high, edges, ActivityOf(high, totalSamples, edges))
  }

  function Summarize(raw: string): (s: RowSummary)
    ensures s.NoSamples? <==> Lines(raw) == []
    ensures s.Unparsable? <==> Lines(raw) != [] && RowBits(Lines(raw)[0]) == []
    ensures !s.NoSamples? ==> s.totalSamples == |Lines(raw)|
    ensures s.Summary? ==>
              && s.numChannels == |RowBits(Lines(raw)[0])| > 0
              && |s.columns| == s.numChannels
              && forall ch :: 0 <= ch < |s.columns| ==> s.columns[ch].index == ch
  {
    var lines := Lines(raw);
    if lines == [] then NoSamples
    else
      var n := |RowBits(lines[0])|;
      if n == 0 then Unparsable(|lines|)
      else
        var rows := Accepted(lines, n);
        Summary(|lines|, n, seq(n, ch requires 0 <= ch < n => ColumnStatOf(ch, |lines|, Column(rows, ch))))
  }

  /** The first line of the summarizer's text. */
  function Headline(s: RowSummary): string {
    match s
    case NoSamples => NoSampleLines
    case Unparsable(total) => "Total samples: " + NatToString(total) + " (unable to parse channel data)"
    case Summary(total, n, _) =>
      "Capture summary: " + NatToString(total) + " samples, " + NatToString(n) + " channels"
  }

  // ---------------------------------------------------------------------
  // The summarizer's arrays
  // ---------------------------------------------------------------------

  /** One channel's `high_counts`, `edge_counts` and `prev_bits` entries
      agree with its samples so far. */
  ghost predicate Tracked(high: nat, edges: nat, prev: Option<char>, rows: seq<string>, ch: nat) {
    && (forall i :: 0 <= i < |rows| ==> ch < |rows[i]|)
    && var col := Column(rows, ch);
       high == CountChar(col, '1') && edges == Edges(col) && prev == Previous(col)
  }

  /** `high_counts`, `edge_counts` and `prev_bits` after some accepted rows. */
  ghost predicate Tracks(high: seq<nat>, edges: seq<nat>, prev: seq<Option<char>>, rows: seq<string>, n: nat) {
    && Rectangular(rows, n)
    && |high| == n && |edges| == n && |prev| == n
    && forall ch :: 0 <= ch < n ==> Tracked(high[ch], edges[ch], prev[ch], rows, ch)
  }

  /** `summarize_capture_data`, up to the text of the per-channel rows. */
  method SummarizeCaptureData(raw: string) returns (s: RowSummary)
    ensures s == Summarize(raw)
  {
    var lines := Lines(raw);
    if lines == [] {
      return NoSamples;
    }
    var totalSamples := |lines|;
    var n := |RowBits(lines[0])|;
    if n == 0 {
      return Unparsable(totalSamples);
    }
    var high := new nat[n](_ => 0);
    var edges := new nat[n](_ => 0);
    var prev := new Option<char>[n](_ => None);
    var rows := CountRows(lines, n, high, edges, prev);
    var columns := Columns(high, edges, totalSamples, rows);
    s := Summary(totalSamples, n, columns);
  }

  /** The outer loop over every line, skipping rows of another width. */
  method CountRows(lines: seq<string>, n: nat, high: array<nat>, edges: array<nat>, prev: array<Option<char>>)
    returns (ghost rows: seq<string>)
    requires high != edges && high.Length == n && edges.Length == n && prev.Length == n
    requires forall ch :: 0 <= ch < n ==> high[ch] == 0 && edges[ch] == 0 && prev[ch] == None
    modifies high, edges, prev
    ensures rows == Accepted(lines, n)
    ensures Tracks(high[..], edges[..], prev[..], rows, n)
  {
    rows := [];
    for i := 0 to |lines|
      invariant rows == Accepted(lines[..i], n)
      invariant Tracks(high[..], edges[..], prev[..], rows, n)
    {
      AcceptedStep(lines, i, n);
      var bits := RowBits(lines[i]);
      if |bits| != n {
        continue;
      }
      AddRow(bits, high, edges, prev, rows);
      rows := rows + [bits];
    }
    assert lines[..|lines|] == lines;
  }

  lemma AcceptedStep(lines: seq<string>, i: nat, n: nat)
    requires i < |lines|
    ensures Accepted(lines[..i + 1], n)
            == Accepted(lines[..i], n) + (if |RowBits(lines[i])| == n then [RowBits(lines[i])] else [])
  {
    assert lines[..i + 1][..i] == lines[..i];
  }

  /** The inner loop over one accepted row, `for ch in range(num_channels)`. */
  method AddRow(bits: string, high: array<nat>, edges: array<nat>, prev: array<Option<char>>, ghost rows: seq<string>)
    requires high != edges
    requires Tracks(high[..], edges[..], prev[..], rows, |bits|)
    modifies high, edges, prev
    ensures Tracks(high[..], edges[..], prev[..], rows + [bits], |bits|)
  {
    ghost var rows' := rows + [bits];
    RectangularSnoc(rows, bits);
    for ch := 0 to |bits|
      invariant forall c :: 0 <= c < ch ==> Tracked(high[c], edges[c], prev[c], rows', c)
      invariant forall c :: ch <= c < |bits| ==> Tracked(high[c], edges[c], prev[c], rows, c)
    {
      AddSample(bits, ch, high, edges, prev, rows);
    }
  }

  /** One channel of the inner loop: its sample in the row is counted. */
  method AddSample(bits: string, ch: nat, high: array<nat>, edges: array<nat>, prev: array<Option<char>>,
                   ghost rows: seq<string>)
    requires high != edges && ch < |bits| == high.Length == edges.Length == prev.Length
    requires Rectangular(rows, |bits|) && Rectangular(rows + [bits], |bits|)
    requires Tracked(high[ch], edges[ch], prev[ch], rows, ch)
    modifies high, edges, prev
    ensures Tracked(high[ch], edges[ch], prev[ch], rows + [bits], ch)
    ensures forall c :: 0 <= c < |bits| && c != ch ==>
              high[c] == old(high[c]) && edges[c] == old(edges[c]) && prev[c] == old(prev[c])
  {
    var b, h, e, p := bits[ch], high[ch], edges[ch], prev[ch];
    ColumnStep(rows, bits, ch, h, e, p);
    if b == '1' {
      h := h + 1;
    }
    if p.Some? && b != p.value {
      e := e + 1;
    }
    high[ch], edges[ch], prev[ch] := h, e, Some(b);
  }

  /** The output loop: one row per channel index. */
  method Columns(high: array<nat>, edges: array<nat>, totalSamples: nat, ghost rows: seq<string>)
    returns (columns: seq<ColumnStat>)
    requires Rectangular(rows, high.Length) && edges.Length == high.Length
    requires forall ch :: 0 <= ch < high.Length ==>
               high[ch] == CountChar(Column(rows, ch), '1') && edges[ch] == Edges(Column(rows, ch))
    ensures columns == seq(high.Length, ch requires 0 <= ch < high.Length => ColumnStatOf(ch, totalSamples, Column(rows, ch)))
  {
    columns := [];
    for ch := 0 to high.Length
      invariant |columns| == ch
      invariant forall c :: 0 <= c < ch ==> columns[c] == ColumnStatOf(c, totalSamples, Column(rows, c))
    {
      columns := columns + [ColumnStat(ch, high[ch], edges[ch], ActivityOf(high[ch], totalSamples, edges[ch]))];
    }
  }

  lemma RectangularSnoc(rows: seq<string>, bits: string)
    requires Rectangular(rows, |bits|)
    ensures Rectangular(rows + [bits], |bits|)
  {
  }

  /** One more accepted row adds its sample to the end of every column. */
  lemma ColumnStep(rows: seq<string>, bits: string, ch: nat, high: nat, edges: nat, prev: Option<char>)
    requires Rectangular(rows, |bits|) && Rectangular(rows + [bits], |bits|) && ch < |bits|
    requires Tracked(high, edges, prev, rows, ch)
    ensures Tracked(high + (if bits[ch] == '1' then 1 else 0),
                    edges + (if prev.Some? && prev.value != bits[ch] then 1 else 0),
                    Some(bits[ch]), rows + [bits], ch)
  {
    var col := Column(rows, ch);
    ColumnSnoc(rows, bits, ch);
    CountSnoc(col, bits[ch], '1');
    EdgesSnoc(col, bits[ch]);
  }

  lemma ColumnSnoc(rows: seq<string>, bits: string, ch: nat)
    requires Rectangular(rows, |bits|) && Rectangular(rows + [bits], |bits|) && ch < |bits|
    ensures Column(rows + [bits], ch) == Column(rows, ch) + [bits[ch]]
  {
    var rows' := rows + [bits];
    assert rows'[..|rows'| - 1] == rows;
  }

  // ---------------------------------------------------------------------
  // What the summary promises
  // ---------------------------------------------------------------------

  /** A skipped row changes nothing: the next accepted row is compared with
      the last accepted one. */
  lemma SkippedRow(lines: seq<string>, line: string, n: nat)
    requires |RowBits(line)| != n
    ensures Accepted(lines + [line], n) == Accepted(lines, n)
  {
    var ls := lines + [line];
    assert ls[..|ls| - 1] == lines;
  }

  /** When no row is skipped, a channel without edges is all high or all low,
      never `static`. */
  lemma NoSkipNeverStatic(rows: seq<string>, ch: nat)
    requires rows != [] && forall i :: 0 <= i < |rows| ==> ch < |rows[i]|
    ensures ColumnStatOf(ch, |rows|, Column(rows, ch)).activity != Static
  {
    var col := Column(rows, ch);
    if Edges(col) == 0 {
      NoEdgesConstant(col);
      CountUniform(col, '1');
    }
  }

  /** With a skipped row, a channel that is high in every accepted row is
      reported `static`, since its high count is below the line count. */
  lemma SkippedRowsMakeStatic(rows: seq<string>, ch: nat, totalSamples: nat)
    requires rows != [] && forall i :: 0 <= i < |rows| ==> ch < |rows[i]| && rows[i][ch] == '1'
    requires totalSamples > |rows|
    ensures ColumnStatOf(ch, totalSamples, Column(rows, ch)).activity == Static
  {
    var col := Column(rows, ch);
    ColumnSamples(rows, ch);
    NoEdgesConstant(col);
    CountUniform(col, '1');
  }

  lemma {:induction false} ColumnSamples(rows: seq<string>, ch: nat)
    requires forall i :: 0 <= i < |rows| ==> ch < |rows[i]|
    ensures forall i :: 0 <= i < |rows| ==> Column(rows, ch)[i] == rows[i][ch]
  {
    if rows != [] {
      ColumnSamples(rows[..|rows| - 1], ch);
    }
  }
}
