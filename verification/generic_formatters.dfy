/**
 * The two generic formatters that all three packages share: the line-count
 * cap of `format_decoded_protocol` and the clamped sample window of
 * `format_raw_samples`. Each is split into a view (what is shown, what is
 * hidden, where the window lies) and the text rendered from that view.
 */
module GenericFormatters {
  import opened PyText

  const NoProtocolData := "No protocol data decoded. " + "Check channel mapping and decoder settings."
  const NoSampleData := "No sample data available."

  // ---------------------------------------------------------------------
  // Line-count cap
  // ---------------------------------------------------------------------

  /** What the cap keeps of the decoder's lines. */
  datatype Capped =
    | NoData
    | All(lines: seq<string>)
    | Truncated(total: nat, cap: int, shown: seq<string>, hidden: int)

  /**
   * The cap: no lines give `NoData`; at most `maxLines` lines are all shown
   * (the test is inclusive); more are cut to a prefix of exactly `maxLines`
   * lines and exactly the rest are reported hidden.
   */
  function Cap(lines: seq<string>, maxLines: int): (c: Capped)
    ensures c.NoData? <==> lines == []
    ensures c.All? <==> lines != [] && |lines| <= maxLines
    ensures c.All? ==> c.lines == lines
    ensures c.Truncated? ==> c.total == |lines| && c.cap == maxLines && c.hidden == |lines| - maxLines
    ensures c.Truncated? ==> |c.shown| <= |lines| && c.shown == lines[..|c.shown|]
    ensures c.Truncated? && maxLines >= 0 ==>
              |c.shown| == maxLines && c.shown + lines[maxLines..] == lines
              && c.hidden == |lines| - |c.shown| > 0
  {
    if |lines| == 0 then NoData
    else if |lines| <= maxLines then All(lines)
    else Truncated(|lines|, maxLines, PyPrefix(lines, maxLines), |lines| - maxLines)
  }

  function CapHeader(total: nat): string {
    "Decoded " + NatToString(total) + " annotations"
  }

  function TruncationNote(hidden: int): string {
    "\n\n... (" + IntToString(hidden) + " more lines truncated)"
  }

  function RenderCapped(c: Capped): string {
    match c
    case NoData => NoProtocolData
    case All(lines) =>
      CapHeader(|lines|) + (":\n\n" + Join(lines, "\n"))
    case Truncated(total, cap, shown, hidden) =>
      CapHeader(total) + (" (showing first " + IntToString(cap) + "):\n\n" + Join(shown, "\n"))
      + TruncationNote(hidden)
  }

  /**
   * The capped report of a list of lines: the diagnostic exactly when there
   * are no lines; otherwise it starts with a header naming the total line
   * count (`CappedReportFits` and `CappedReportNote` say what follows).
   */
  function CappedReport(lines: seq<string>, maxLines: int): (r: string)
    ensures r == NoProtocolData <==> lines == []
    ensures lines != [] ==> StartsWith(r, CapHeader(|lines|))
  {
    var c := Cap(lines, maxLines);
    if lines == [] then RenderCapped(c)
    else
      RenderedStart(c);
      RenderCapped(c)
  }

  /** A rendering with lines starts with its header, so it is not the
      diagnostic. */
  lemma RenderedStart(c: Capped)
    requires !c.NoData?
    ensures var total := if c.All? then |c.lines| else c.total;
            StartsWith(RenderCapped(c), CapHeader(total)) && RenderCapped(c) != NoProtocolData
  {
    var total := if c.All? then |c.lines| else c.total;
    var header := CapHeader(total);
    CapHeaderStart(total);
    NoDataMessages();
    match c
    case All(lines) =>
      ConcatEnds(header, ":\n\n" + Join(lines, "\n"));
    case Truncated(_, cap, shown, hidden) =>
      var body := " (showing first " + IntToString(cap) + "):\n\n" + Join(shown, "\n");
      ConcatEnds(header + body, TruncationNote(hidden));
      ConcatEnds(header, body + TruncationNote(hidden));
  }

  /** Lines that fit are all shown, after the header and a blank line. */
  lemma CappedReportFits(lines: seq<string>, maxLines: int)
    requires lines != [] && |lines| <= maxLines
    ensures CappedReport(lines, maxLines) == CapHeader(|lines|) + (":\n\n" + Join(lines, "\n"))
  {
  }

  /** Cut lines end the report with a note naming exactly how many were hidden. */
  lemma CappedReportNote(lines: seq<string>, maxLines: int)
    requires |lines| > maxLines && lines != []
    ensures var note := TruncationNote(|lines| - maxLines);
            var r := CappedReport(lines, maxLines);
            |note| <= |r| && r[|r| - |note|..] == note
  {
    var c := Cap(lines, maxLines);
    var body := CapHeader(|lines|) + (" (showing first " + IntToString(maxLines) + "):\n\n" + Join(c.shown, "\n"));
    ConcatEnds(body, TruncationNote(|lines| - maxLines));
  }

  /** `format_decoded_protocol`: the capped report of the stripped text's lines. */
  function FormatDecodedProtocol(raw: string, maxLines: int): (r: string)
    ensures r == NoProtocolData <==> Lines(raw) == []
    ensures Lines(raw) != [] ==> StartsWith(r, CapHeader(|Lines(raw)|))
    ensures |Lines(raw)| > maxLines && Lines(raw) != [] ==>
              var note := TruncationNote(|Lines(raw)| - maxLines);
              |note| <= |r| && r[|r| - |note|..] == note
  {
    CappedReport(Lines(raw), maxLines)
  }

  /** A capped header starts with a `D`, so it is never the diagnostic. */
  lemma CapHeaderStart(total: nat)
    ensures |CapHeader(total)| > 0 && CapHeader(total)[0] == 'D'
    ensures CapHeader(total) != NoProtocolData
  {
    ConcatEnds("Decoded " + NatToString(total), " annotations");
    ConcatEnds("Decoded ", NatToString(total));
    NoDataMessages();
  }

  lemma NoDataMessages()
    ensures NoProtocolData[0] == 'N' && NoSampleData[0] == 'N'
  {
  }

  // ---------------------------------------------------------------------
  // Clamped sample window
  // ---------------------------------------------------------------------

  /** Where the window lies and what it shows. */
  datatype Window =
    | NoSamples
    | Window(start: nat, end: int, total: nat, shown: seq<string>)

  /**
   * The window: the start is clamped into the sample range (a negative start
   * becomes 0, a start past the end becomes the last sample), the end is
   * `window_size` later but never past the total, and exactly the lines
   * between them are shown.
   */
  function SampleWindow(lines: seq<string>, startSample: int, windowSize: int): (w: Window)
    ensures w.NoSamples? <==> lines == []
    ensures w.Window? ==> w.total == |lines| && w.start < |lines| && w.end <= |lines|
    ensures w.Window? ==> (0 <= startSample < |lines| ==> w.start == startSample)
                          && (startSample < 0 ==> w.start == 0)
                          && (startSample >= |lines| ==> w.start == |lines| - 1)
    ensures w.Window? ==> w.end == if w.start + windowSize < |lines| then w.start + windowSize else |lines|
    ensures w.Window? && windowSize >= 0 ==>
              w.start <= w.end && w.shown == lines[w.start..w.end] && |w.shown| == w.end - w.start
    ensures w.Window? && 0 <= w.end <= w.start ==> w.shown == []
  {
    if |lines| == 0 then NoSamples
    else
      var total := |lines|;
      var lo := if startSample < total - 1 then startSample else total - 1;
      var start := if lo < 0 then 0 else lo;
      var end := if start + windowSize < total then start + windowSize else total;
      Window(start, end, total, PySlice(lines, start, end))
  }

  function WindowSpan(start: nat, end: int, total: nat): string {
    "Samples " + NatToString(start) + "-" + IntToString(end - 1) + " of " + NatToString(total) + " total"
  }

  function RenderWindow(w: Window): string {
    match w
    case NoSamples => NoSampleData
    case Window(start, end, total, shown) =>
      WindowSpan(start, end, total)
      + (" (showing " + IntToString(end - start) + " samples):\n" + Join(shown, "\n"))
  }

  /**
   * `format_raw_samples`: the diagnostic exactly when the stripped text has no
   * lines; otherwise a header giving the first and last sample shown and the
   * total, followed by the shown lines.
   */
  function FormatRawSamples(raw: string, startSample: int, windowSize: int): (r: string)
    ensures r == NoSampleData <==> Lines(raw) == []
    ensures Lines(raw) != [] ==>
              var w := SampleWindow(Lines(raw), startSample, windowSize);
              StartsWith(r, WindowSpan(w.start, w.end, |Lines(raw)|))
  {
    WindowText(Lines(raw), startSample, windowSize);
    RenderWindow(SampleWindow(Lines(raw), startSample, windowSize))
  }

  lemma WindowText(lines: seq<string>, startSample: int, windowSize: int)
    ensures var w := SampleWindow(lines, startSample, windowSize);
            var r := RenderWindow(w);
            && (r == NoSampleData <==> lines == [])
            && (lines != [] ==> StartsWith(r, WindowSpan(w.start, w.end, |lines|)))
  {
    var w := SampleWindow(lines, startSample, windowSize);
    if w.Window? {
      var header := WindowSpan(w.start, w.end, w.total);
      ConcatEnds(header, " (showing " + IntToString(w.end - w.start) + " samples):\n" + Join(w.shown, "\n"));
      assert header[0] == 'S';
      NoDataMessages();
    }
  }
}
