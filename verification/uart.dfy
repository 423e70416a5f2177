/**
 * `format_uart_transactions`: the TX and RX data annotations grouped into
 * runs of one direction, printed as hex with an ASCII column, and cut off
 * before the first run that starts at or past the byte limit.
 */
module UART {
  import opened Wrappers
  import opened PyText
  import opened Annotations

  const NoUARTData := "No UART data decoded."

  /** One data annotation: its direction (`"TX"` or `"RX"`) and its value. */
  datatype Byte = Byte(dir: string, value: string)

  /** A run of bytes of one direction. */
  datatype Segment = Segment(dir: string, data: seq<string>)

  /** The value after `": "`, or nothing when there is no `": "`. */
  function DataValue(ann: string): string {
    if Contains(ann, ": ") then After(ann, ": ") else ""
  }

  /** A `TX data` or `RX data` annotation is a byte with its value
      upper-cased; every other annotation is skipped. */
  function Classify(ann: string): Option<Byte> {
    if StartsWith(ann, "TX data") then Some(Byte("TX", Upper(DataValue(ann))))
    else if StartsWith(ann, "RX data") then Some(Byte("RX", Upper(DataValue(ann))))
    else None
  }

  function ByteOf(ann: string): seq<Byte> {
    match Classify(ann) case Some(b) => [b] case None => []
  }

  /** The bytes of the annotations, in order. */
  function BytesOf(anns: seq<string>): seq<Byte> {
    if anns == [] then [] else BytesOf(anns[..|anns| - 1]) + ByteOf(anns[|anns| - 1])
  }

  // ---------------------------------------------------------------------
  // Runs
  // ---------------------------------------------------------------------

  /** Each byte extends the last run when it has the same direction and
      starts a new run otherwise. */
  function Runs(bs: seq<Byte>): seq<Segment> {
    if bs == [] then []
    else
      var r := Runs(bs[..|bs| - 1]);
      var b := bs[|bs| - 1];
      if r != [] && Last(r).dir == b.dir then r[..|r| - 1] + [Segment(b.dir, Last(r).data + [b.value])]
      else r + [Segment(b.dir, [b.value])]
  }

  /** The bytes a run stands for. */
  function Spread(seg: Segment): (r: seq<Byte>)
    ensures |r| == |seg.data| && forall j :: 0 <= j < |r| ==> r[j] == Byte(seg.dir, seg.data[j])
  {
    seq(|seg.data|, j requires 0 <= j < |seg.data| => Byte(seg.dir, seg.data[j]))
  }

  function Expand(segs: seq<Segment>): seq<Byte> {
    if segs == [] then [] else Expand(segs[..|segs| - 1]) + Spread(segs[|segs| - 1])
  }

  /** Runs lose and reorder nothing: spreading them out again gives back the bytes. */
  lemma {:induction false} ExpandRuns(bs: seq<Byte>)
    ensures Expand(Runs(bs)) == bs
  {
    if bs != [] {
      var init := bs[..|bs| - 1];
      var b := bs[|bs| - 1];
      var r := Runs(init);
      ExpandRuns(init);
      assert init + [b] == bs;
      if r != [] && Last(r).dir == b.dir {
        assert r == r[..|r| - 1] + [Last(r)];
        ExpandExtend(r[..|r| - 1], Last(r), b);
      } else {
        ExpandNew(r, b);
      }
    }
  }

  /** A byte that joins the last run comes last in the expansion. */
  lemma ExpandExtend(front: seq<Segment>, seg: Segment, b: Byte)
    requires seg.dir == b.dir
    ensures Expand(front + [Segment(b.dir, seg.data + [b.value])]) == Expand(front + [seg]) + [b]
  {
    ExpandSnoc(front, seg);
    ExpandSnoc(front, Segment(b.dir, seg.data + [b.value]));
    SpreadSnoc(seg, b);
    assert Expand(front) + (Spread(seg) + [b]) == (Expand(front) + Spread(seg)) + [b];
  }

  /** A byte that opens a run comes last in the expansion. */
  lemma ExpandNew(r: seq<Segment>, b: Byte)
    ensures Expand(r + [Segment(b.dir, [b.value])]) == Expand(r) + [b]
  {
    ExpandSnoc(r, Segment(b.dir, [b.value]));
    assert Spread(Segment(b.dir, [b.value])) == [b];
  }

  lemma SpreadSnoc(seg: Segment, b: Byte)
    requires seg.dir == b.dir
    ensures Spread(Segment(b.dir, seg.data + [b.value])) == Spread(seg) + [b]
  {
  }

  lemma ExpandSnoc(segs: seq<Segment>, seg: Segment)
    ensures Expand(segs + [seg]) == Expand(segs) + Spread(seg)
  {
    assert (segs + [seg])[..|segs|] == segs;
  }

  /** Runs are maximal: none is empty and neighbours differ in direction. */
  lemma {:induction false} RunsMaximal(bs: seq<Byte>)
    ensures forall i :: 0 <= i < |Runs(bs)| ==> Runs(bs)[i].data != []
    ensures forall i :: 0 <= i < |Runs(bs)| - 1 ==> Runs(bs)[i].dir != Runs(bs)[i + 1].dir
    ensures bs != [] ==> Runs(bs) != [] && Last(Runs(bs)).dir == Last(bs).dir
  {
    if bs != [] {
      var init := bs[..|bs| - 1];
      var b := bs[|bs| - 1];
      var r := Runs(init);
      RunsMaximal(init);
      var r' := Runs(bs);
      if r != [] && Last(r).dir == b.dir {
        var front := r[..|r| - 1];
        assert r' == front + [Segment(b.dir, Last(r).data + [b.value])];
        assert forall i :: 0 <= i < |front| ==> r'[i] == r[i];
      } else {
        assert r' == r + [Segment(b.dir, [b.value])];
        assert forall i :: 0 <= i < |r| ==> r'[i] == r[i];
      }
    }
  }

  /** The number of bytes in some runs. */
  function Total(segs: seq<Segment>): nat {
    if segs == [] then 0 else Total(segs[..|segs| - 1]) + |segs[|segs| - 1].data|
  }

  lemma {:induction false} TotalIsExpandLength(segs: seq<Segment>)
    ensures Total(segs) == |Expand(segs)|
  {
    if segs != [] {
      TotalIsExpandLength(segs[..|segs| - 1]);
    }
  }

  /** The header's byte count is the number of data annotations. */
  lemma TotalOfRuns(bs: seq<Byte>)
    ensures Total(Runs(bs)) == |bs|
  {
    TotalIsExpandLength(Runs(bs));
    ExpandRuns(bs);
  }

  // ---------------------------------------------------------------------
  // The run-building loop
  // ---------------------------------------------------------------------

  /** The runs so far: the closed ones and the open one, if it has bytes. */
  function Open(segments: seq<Segment>, dir: string, current: seq<string>): seq<Segment> {
    segments + (if current != [] then [Segment(dir, current)] else [])
  }

  /** The loop of `format_uart_transactions` that groups consecutive bytes of
      one direction, and the close of the last run after it. */
  method GroupSegments(anns: seq<string>) returns (segments: seq<Segment>)
    ensures segments == Runs(BytesOf(anns))
  {
    segments := [];
    var currentDir := "";
    var currentBytes: seq<string> := [];
    var i := 0;
    while i < |anns|
      invariant 0 <= i <= |anns|
      invariant currentBytes == [] ==> segments == []
      invariant Open(segments, currentDir, currentBytes) == Runs(BytesOf(anns[..i]))
    {
      assert anns[..i + 1][..i] == anns[..i];
      segments, currentDir, currentBytes := HandleAnnotation(anns[i], segments, currentDir, currentBytes, BytesOf(anns[..i]));
      i := i + 1;
    }
    assert anns[..i] == anns;
    if currentBytes != [] {
      segments := segments + [Segment(currentDir, currentBytes)];
    }
  }

  /** The body of the grouping loop: a data annotation extends the open run
      or closes it and opens one in its own direction; any other annotation
      is skipped. */
  method HandleAnnotation(ann: string, segments0: seq<Segment>, dir0: string, current0: seq<string>,
                          ghost bs: seq<Byte>)
    returns (segments: seq<Segment>, currentDir: string, currentBytes: seq<string>)
    requires current0 == [] ==> segments0 == []
    requires Open(segments0, dir0, current0) == Runs(bs)
    ensures currentBytes == [] ==> segments == []
    ensures Open(segments, currentDir, currentBytes) == Runs(bs + ByteOf(ann))
  {
    segments, currentDir, currentBytes := segments0, dir0, current0;
    var direction := "";
    var value := "";
    if StartsWith(ann, "TX data") {
      direction := "TX";
      value := if Contains(ann, ": ") then After(ann, ": ") else "";
    } else if StartsWith(ann, "RX data") {
      direction := "RX";
      value := if Contains(ann, ": ") then After(ann, ": ") else "";
    } else {
      assert bs + ByteOf(ann) == bs;
      return;
    }
    var b := Byte(direction, Upper(value));
    assert ByteOf(ann) == [b];
    RunsStep(segments, currentDir, currentBytes, bs, b);
    if direction != currentDir {
      if currentBytes != [] {
        segments := segments + [Segment(currentDir, currentBytes)];
      }
      currentDir := direction;
      currentBytes := [];
      assert currentBytes + [Upper(value)] == [b.value];
    }
    currentBytes := currentBytes + [Upper(value)];
  }

  /** One byte's effect on the loop's runs. */
  lemma RunsStep(segments: seq<Segment>, dir: string, current: seq<string>, bs: seq<Byte>, b: Byte)
    requires current == [] ==> segments == []
    requires Open(segments, dir, current) == Runs(bs)
    ensures var closed := if b.dir != dir && current != [] then segments + [Segment(dir, current)] else segments;
            var open := if b.dir != dir then [b.value] else current + [b.value];
            Open(closed, b.dir, open) == Runs(bs + [b])
  {
    var bs' := bs + [b];
    assert bs'[..|bs'| - 1] == bs;
    var r := Runs(bs);
    if current == [] {
      assert r == [];
      assert current + [b.value] == [b.value];
      assert Runs(bs') == [Segment(b.dir, [b.value])];
    } else {
      assert r == segments + [Segment(dir, current)];
      assert Last(r) == Segment(dir, current);
      assert r[..|r| - 1] == segments;
      if b.dir == dir {
        assert Runs(bs') == segments + [Segment(dir, current + [b.value])];
      } else {
        assert Runs(bs') == (segments + [Segment(dir, current)]) + [Segment(b.dir, [b.value])];
      }
    }
  }

  // ---------------------------------------------------------------------
  // Rendering
  // ---------------------------------------------------------------------

  /** Where the listing stops: the first run at whose start `maxBytes` bytes
      or more have been printed, or after the last run. */
  function CutFrom(segs: seq<Segment>, maxBytes: int, k: nat): (n: nat)
    requires k <= |segs|
    ensures k <= n <= |segs|
    decreases |segs| - k
  {
    if k == |segs| || Total(segs[..k]) >= maxBytes then k else CutFrom(segs, maxBytes, k + 1)
  }

  function Cut(segs: seq<Segment>, maxBytes: int): nat {
    CutFrom(segs, maxBytes, 0)
  }

  lemma {:induction false} CutFromIsFirst(segs: seq<Segment>, maxBytes: int, k: nat)
    requires k <= |segs|
    requires forall j :: 0 <= j < k ==> Total(segs[..j]) < maxBytes
    ensures var n := CutFrom(segs, maxBytes, k);
            && (forall j :: 0 <= j < n ==> Total(segs[..j]) < maxBytes)
            && (n < |segs| ==> Total(segs[..n]) >= maxBytes)
    decreases |segs| - k
  {
    if k < |segs| && Total(segs[..k]) < maxBytes {
      CutFromIsFirst(segs, maxBytes, k + 1);
    }
  }

  /** The cut is the first run at whose start the printed bytes reach the
      limit: every earlier run starts below the limit, and a cut before the
      end starts at or past it. */
  lemma CutIsFirst(segs: seq<Segment>, maxBytes: int)
    ensures Cut(segs, maxBytes) <= |segs|
    ensures forall j :: 0 <= j < Cut(segs, maxBytes) ==> Total(segs[..j]) < maxBytes
    ensures Cut(segs, maxBytes) < |segs| ==> Total(segs[..Cut(segs, maxBytes)]) >= maxBytes
  {
    CutFromIsFirst(segs, maxBytes, 0);
  }

  /** The printable ASCII character of a byte value, `.` otherwise. */
  function AsciiChar(v: int): char {
    if 0x20 <= v < 0x7F then v as char else '.'
  }

  predicate AllParse(data: seq<string>) {
    forall i :: 0 <= i < |data| ==> ParseHex(data[i]).Some?
  }

  /** The ASCII column: empty as soon as one value is not hexadecimal. */
  function Ascii(data: seq<string>): (r: string)
    ensures AllParse(data) ==> |r| == |data|
    ensures !AllParse(data) ==> r == ""
  {
    if AllParse(data) then
      seq(|data|, i requires 0 <= i < |data| && AllParse(data) => AsciiChar(ParseHex(data[i]).value))
    else ""
  }

  /** Each value gives one character of the column: the byte itself when it
      is printable, `.` otherwise. */
  lemma AsciiAt(data: seq<string>, i: nat)
    requires AllParse(data) && i < |data|
    ensures var v := ParseHex(data[i]).value;
            && |Ascii(data)| == |data|
            && (0x20 <= v < 0x7F ==> Ascii(data)[i] == v as char)
            && (!(0x20 <= v < 0x7F) ==> Ascii(data)[i] == '.')
  {
  }

  function Prefix(dir: string): string {
    if dir == "TX" then "TX>" else "RX<"
  }

  /** `TX> 48 69  "Hi"`, without the quoted column when it is empty. */
  function SegmentLine(seg: Segment): string {
    var hex := Join(seg.data, " ");
    var ascii := Ascii(seg.data);
    Prefix(seg.dir) + (if ascii != "" then " " + hex + "  \"" + ascii + "\"" else " " + hex)
  }

  /** A run's line carries the quoted ASCII column exactly when every value
      of the run parses as hexadecimal. */
  lemma SegmentLineColumn(seg: Segment)
    requires seg.data != []
    ensures AllParse(seg.data) <==> Ascii(seg.data) != ""
    ensures AllParse(seg.data) ==>
              SegmentLine(seg) == Prefix(seg.dir) + (" " + Join(seg.data, " ") + "  \"" + Ascii(seg.data) + "\"")
    ensures !AllParse(seg.data) ==> SegmentLine(seg) == Prefix(seg.dir) + (" " + Join(seg.data, " "))
  {
    if AllParse(seg.data) {
      assert |Ascii(seg.data)| == |seg.data| > 0;
    }
  }

  function Header(totalBytes: nat, segments: nat): string {
    "UART: " + NatToString(totalBytes) + " bytes in " + NatToString(segments) + " segments"
  }

  function TruncatedNote(maxBytes: int): string {
    "\n... (truncated at " + IntToString(maxBytes) + " bytes)"
  }

  /** The header, a blank line, one line per run before the cut, and the
      truncation note exactly when the cut is before the end. */
  function UartLines(segs: seq<Segment>, maxBytes: int): (r: seq<string>)
    ensures var n := Cut(segs, maxBytes);
            && |r| == 2 + n + (if n < |segs| then 1 else 0)
            && r[0] == Header(Total(segs), |segs|) && r[1] == ""
            && (forall i :: 0 <= i < n ==> r[2 + i] == SegmentLine(segs[i]))
            && (n < |segs| ==> r[|r| - 1] == TruncatedNote(maxBytes))
  {
    var n := Cut(segs, maxBytes);
    Shown(segs, n) + (if n < |segs| then [TruncatedNote(maxBytes)] else [])
  }

  /** The header, the blank line and the lines of the first `k` runs. */
  function Shown(segs: seq<Segment>, k: nat): (r: seq<string>)
    requires k <= |segs|
    ensures |r| == 2 + k && r[0] == Header(Total(segs), |segs|) && r[1] == ""
    ensures forall i :: 0 <= i < k ==> r[2 + i] == SegmentLine(segs[i])
  {
    [Header(Total(segs), |segs|), ""] + RunLines(segs)[..k]
  }

  /** One line per run. */
  function RunLines(segs: seq<Segment>): (r: seq<string>)
    ensures |r| == |segs| && forall i :: 0 <= i < |segs| ==> r[i] == SegmentLine(segs[i])
  {
    seq(|segs|, i requires 0 <= i < |segs| => SegmentLine(segs[i]))
  }

  /** One more run shown adds its line at the end. */
  lemma ShownStep(segs: seq<Segment>, k: nat)
    requires k < |segs|
    ensures Shown(segs, k + 1) == Shown(segs, k) + [SegmentLine(segs[k])]
  {
    TakeSnoc(RunLines(segs), k);
    AppendAssoc([Header(Total(segs), |segs|), ""], RunLines(segs)[..k], [RunLines(segs)[k]]);
  }

  /** `sum(len(s[1]) for s in segments)`. */
  method TotalBytes(segments: seq<Segment>) returns (totalBytes: nat)
    ensures totalBytes == Total(segments)
  {
    totalBytes := 0;
    var k := 0;
    while k < |segments|
      invariant 0 <= k <= |segments|
      invariant totalBytes == Total(segments[..k])
    {
      assert segments[..k + 1][..k] == segments[..k];
      totalBytes := totalBytes + |segments[k].data|;
      k := k + 1;
    }
    assert segments[..k] == segments;
  }

  /** The printing loop of `format_uart_transactions`. */
  method RenderSegments(segments: seq<Segment>, maxBytes: int) returns (lines: seq<string>)
    ensures lines == UartLines(segments, maxBytes)
  {
    var totalBytes := TotalBytes(segments);
    lines := [Header(totalBytes, |segments|), ""];
    var byteCount := 0;
    for k := 0 to |segments|
      invariant CutFrom(segments, maxBytes, k) == Cut(segments, maxBytes)
      invariant byteCount == Total(segments[..k])
      invariant lines == Shown(segments, k)
    {
      if byteCount >= maxBytes {
        lines := lines + [TruncatedNote(maxBytes)];
        return;
      }
      lines, byteCount := ShowRun(segments, k, lines, byteCount);
    }
  }

  /** Run `k` is printed and its bytes counted. */
  method ShowRun(segments: seq<Segment>, k: nat, lines0: seq<string>, byteCount0: nat)
    returns (lines: seq<string>, byteCount: nat)
    requires k < |segments| && lines0 == Shown(segments, k) && byteCount0 == Total(segments[..k])
    ensures lines == Shown(segments, k + 1) && byteCount == Total(segments[..k + 1])
  {
    assert segments[..k + 1][..k] == segments[..k];
    ShownStep(segments, k);
    lines := lines0 + [SegmentLine(segments[k])];
    byteCount := byteCount0 + |segments[k].data|;
  }

  /** The formatter's text for a list of annotations. */
  function Report(anns: seq<string>, maxBytes: int): string {
    if anns == [] then NoUARTData else Join(UartLines(Runs(BytesOf(anns)), maxBytes), "\n")
  }

  /** `format_uart_transactions`. */
  method FormatUARTTransactions(raw: string, maxBytes: int) returns (out: string)
    ensures out == Report(TokensOf(Lines(raw)), maxBytes)
  {
    var anns := ParseAnnotations(raw);
    if anns == [] {
      return NoUARTData;
    }
    var segments := GroupSegments(anns);
    var lines := RenderSegments(segments, maxBytes);
    out := Join(lines, "\n");
  }

  // ---------------------------------------------------------------------
  // What the report promises
  // ---------------------------------------------------------------------

  /** The header starts with `U`, so a report is never the diagnostic. */
  lemma HeaderStart(totalBytes: nat, segments: nat)
    ensures |Header(totalBytes, segments)| > 0 && Header(totalBytes, segments)[0] == 'U'
  {
    var rest := NatToString(totalBytes) + " bytes in " + NatToString(segments) + " segments";
    assert Header(totalBytes, segments) == "UART: " + rest;
  }

  /**
   * The report is the diagnostic exactly when there are no annotations;
   * otherwise its header counts every TX and RX data annotation as a byte
   * and names the number of runs.
   */
  lemma ReportShape(anns: seq<string>, maxBytes: int)
    ensures Report(anns, maxBytes) == NoUARTData <==> anns == []
    ensures anns != [] ==>
              StartsWith(Report(anns, maxBytes), Header(|BytesOf(anns)|, |Runs(BytesOf(anns))|))
  {
    if anns != [] {
      var segs := Runs(BytesOf(anns));
      TotalOfRuns(BytesOf(anns));
      var header := Header(Total(segs), |segs|);
      ListingText(header, UartLines(segs, maxBytes));
      HeaderStart(Total(segs), |segs|);
      assert NoUARTData[0] == 'N';
    }
  }

  /** A run's line starts with its direction marker, never with a line break. */
  lemma SegmentLineStart(seg: Segment)
    ensures |SegmentLine(seg)| > 0 && SegmentLine(seg)[0] != '\n'
  {
    var p := Prefix(seg.dir);
    assert p[0] == 'T' || p[0] == 'R';
    var ascii := Ascii(seg.data);
    var hex := Join(seg.data, " ");
    ConcatEnds(p, if ascii != "" then " " + hex + "  \"" + ascii + "\"" else " " + hex);
  }

  /**
   * The listing shows exactly the runs before the cut, in order, and ends
   * with the truncation note exactly when some run starts with `maxBytes` or
   * more bytes already printed.
   */
  lemma Truncation(segs: seq<Segment>, maxBytes: int)
    ensures var lines := UartLines(segs, maxBytes);
            var n := Cut(segs, maxBytes);
            && |lines| >= 2 + n
            && (forall i :: 0 <= i < n ==> lines[2 + i] == SegmentLine(segs[i]))
            && (lines[|lines| - 1] == TruncatedNote(maxBytes)
                <==> exists k :: 0 <= k < |segs| && Total(segs[..k]) >= maxBytes)
  {
    var lines := UartLines(segs, maxBytes);
    var n := Cut(segs, maxBytes);
    CutIsFirst(segs, maxBytes);
    if n < |segs| {
      assert Total(segs[..n]) >= maxBytes;
    } else {
      NoteStart(maxBytes);
      if n == 0 {
        assert lines[|lines| - 1] == "";
      } else {
        assert lines[|lines| - 1] == SegmentLine(segs[n - 1]);
        SegmentLineStart(segs[n - 1]);
      }
      assert lines[|lines| - 1] != TruncatedNote(maxBytes);
      assert !exists k :: 0 <= k < |segs| && Total(segs[..k]) >= maxBytes;
    }
  }

  lemma NoteStart(maxBytes: int)
    ensures |TruncatedNote(maxBytes)| > 0 && TruncatedNote(maxBytes)[0] == '\n'
  {
    var head := "\n... (truncated at ";
    assert head[0] == '\n';
  }

  // ---------------------------------------------------------------------
  // The ASCII column
  // ---------------------------------------------------------------------

  function UpperHexDigit(d: nat): (c: char)
    requires d < 16
    ensures IsHexDigit(c) && HexDigitValue(c) == d && c != 'x' && !IsSpace(c)
  {
    if d < 10 then ('0' as int + d) as char else ('A' as int + d - 10) as char
  }

  /** The two upper-case hex digits of a byte, as the decoder prints them. */
  function HexByte(c: char): string
    requires c as int < 256
  {
    [UpperHexDigit(c as int / 16), UpperHexDigit(c as int % 16)]
  }

  lemma HexByteValue(c: char)
    requires c as int < 256
    ensures NoSpace(HexByte(c)) && AllHexDigits(HexByte(c)) && HexValue(HexByte(c)) == c as int
  {
    var h := HexByte(c);
    assert h[..1] == [h[0]] && h[..|h| - 1] == h[..1];
    assert HexValue(h[..1]) == c as int / 16;
  }

  /** `int(b, 16)` reads a byte's two hex digits back as the byte. */
  lemma ParseHexByte(c: char)
    requires c as int < 256
    ensures ParseHex(HexByte(c)) == Some(c as int)
  {
    var h := HexByte(c);
    HexByteValue(c);
    StripNoSpace(h);
    assert h[0] != '-' && h[0] != '+' && h[1] != 'x' && h[1] != 'X';
  }

  predicate Printable(text: string) {
    forall i :: 0 <= i < |text| ==> 0x20 <= text[i] as int < 0x7F
  }

  /** The ASCII column of a printable text's hex dump is the text again. */
  lemma AsciiOfHexDump(text: string)
    requires Printable(text)
    ensures Ascii(seq(|text|, i requires 0 <= i < |text| && Printable(text) => HexByte(text[i]))) == text
  {
    var data := seq(|text|, i requires 0 <= i < |text| && Printable(text) => HexByte(text[i]));
    forall i | 0 <= i < |data| ensures ParseHex(data[i]) == Some(text[i] as int) {
      ParseHexByte(text[i]);
    }
    assert AllParse(data);
  }
}
