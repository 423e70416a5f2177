/**
 * `export_data_from_array` of the native backend: the capture matrix as
 * text, one line per sample and a final newline, in `bits` (the default,
 * optionally restricted to a set of channel positions), `hex` (the filter
 * is ignored) or `csv` (one comma-separated value per kept channel).
 */
module NativeExport {
  import opened Wrappers
  import opened PyText
  import opened NativeConvert

  /** A numpy matrix of `unit_size` columns. */
  predicate Rectangular(data: seq<seq<byte>>, unitSize: nat) {
    forall s :: 0 <= s < |data| ==> |data[s]| == unitSize
  }

  /** `"".join(line[i] for i in range(len(line)) if i in channel_filter)`. */
  function Keep(line: string, filter: set<int>): (r: string)
    ensures |r| <= |line|
  {
    if line == [] then []
    else Keep(line[..|line| - 1], filter) + (if |line| - 1 in filter then [line[|line| - 1]] else [])
  }

  /** The characters kept for an optional channel filter. */
  function Selected(line: string, filter: Option<set<int>>): string {
    match filter
    case None => line
    case Some(f) => Keep(line, f)
  }

  /** `list(line)`: one one-character string per character. */
  function Singles(vals: string): (parts: seq<string>)
    ensures |parts| == |vals|
    ensures forall i :: 0 <= i < |vals| ==> parts[i] == [vals[i]]
  {
    if vals == [] then [] else Singles(vals[..|vals| - 1]) + [[vals[|vals| - 1]]]
  }

  /** `",".join(vals)` with one value per character. */
  function CsvLine(vals: string): string {
    Join(Singles(vals), ",")
  }

  /** The lines of the export before they are joined. */
  function ExportLines(data: seq<seq<byte>>, numChannels: int, format: string, filter: Option<set<int>>)
    : (lines: seq<string>)
    ensures |lines| == |data|
  {
    if format == "csv" then
      seq(|data|, i requires 0 <= i < |data| => CsvLine(Selected(BitsLine(data[i], numChannels), filter)))
    else if format == "hex" then HexLines(data)
    else seq(|data|, i requires 0 <= i < |data| => Selected(BitsLine(data[i], numChannels), filter))
  }

  function Export(data: seq<seq<byte>>, unitSize: nat, numChannels: int, format: string, filter: Option<set<int>>)
    : string
    requires Rectangular(data, unitSize)
  {
    if |data| * unitSize == 0 then ""
    else Join(ExportLines(data, numChannels, format, filter), "\n") + "\n"
  }

  /** `export_data_from_array`. */
  method ExportDataFromArray(data: seq<seq<byte>>, unitSize: nat, numChannels: int, format: string,
                             filter: Option<set<int>>) returns (out: string)
    requires Rectangular(data, unitSize)
    ensures out == Export(data, unitSize, numChannels, format, filter)
  {
    if |data| * unitSize == 0 {
      return "";
    }
    var lines: seq<string>;
    if format == "hex" {
      lines := HexLines(data);
    } else {
      var allBits := DataToBits(data, numChannels);
      if filter.Some? {
        allBits := FilterLines(allBits, filter.value);
      }
      lines := allBits;
    }
    if format == "csv" {
      var bitLines := DataToBits(data, numChannels);
      lines := CsvLines(bitLines, filter);
    }
    assert lines == ExportLines(data, numChannels, format, filter);
    out := Join(lines, "\n") + "\n";
  }

  /** The filtering loop of the `bits` format. */
  method FilterLines(lines: seq<string>, filter: set<int>) returns (filtered: seq<string>)
    ensures filtered == seq(|lines|, j requires 0 <= j < |lines| => Keep(lines[j], filter))
  {
    filtered := [];
    for j := 0 to |lines|
      invariant |filtered| == j
      invariant forall k :: 0 <= k < j ==> filtered[k] == Keep(lines[k], filter)
    {
      filtered := filtered + [Keep(lines[j], filter)];
    }
  }

  /** The loop of the `csv` format. */
  method CsvLines(bitLines: seq<string>, filter: Option<set<int>>) returns (csvLines: seq<string>)
    ensures csvLines == seq(|bitLines|, j requires 0 <= j < |bitLines| => CsvLine(Selected(bitLines[j], filter)))
  {
    csvLines := [];
    for j := 0 to |bitLines|
      invariant |csvLines| == j
      invariant forall k :: 0 <= k < j ==> csvLines[k] == CsvLine(Selected(bitLines[k], filter))
    {
      var vals := Selected(bitLines[j], filter);
      csvLines := csvLines + [CsvLine(vals)];
    }
  }

  // ---------------------------------------------------------------------
  // What the export promises
  // ---------------------------------------------------------------------

  /** A filter holding every position keeps the whole line. */
  lemma {:induction false} KeepAll(line: string, filter: set<int>)
    requires forall i :: 0 <= i < |line| ==> i in filter
    ensures Keep(line, filter) == line
  {
    if line != [] {
      KeepAll(line[..|line| - 1], filter);
    }
  }

  /** A filter holding none of the positions keeps nothing. */
  lemma {:induction false} KeepNone(line: string, filter: set<int>)
    requires forall i :: 0 <= i < |line| ==> i !in filter
    ensures Keep(line, filter) == ""
  {
    if line != [] {
      KeepNone(line[..|line| - 1], filter);
    }
  }

  /** Filtering a prefix of a line gives a prefix of the filtered line: the
      kept characters stay in their original order. */
  lemma {:induction false} KeepPrefix(line: string, filter: set<int>, j: nat)
    requires j <= |line|
    ensures var k := Keep(line[..j], filter);
            |k| <= |Keep(line, filter)| && Keep(line, filter)[..|k|] == k
  {
    if j < |line| {
      var init := line[..|line| - 1];
      assert init[..j] == line[..j];
      KeepPrefix(init, filter, j);
    } else {
      assert line[..j] == line;
    }
  }

  /** A position in the filter keeps its character, right after the
      characters kept from the positions before it. */
  lemma KeepAt(line: string, filter: set<int>, j: nat)
    requires j < |line| && j in filter
    ensures var n := |Keep(line[..j], filter)|;
            n < |Keep(line, filter)| && Keep(line, filter)[n] == line[j]
  {
    var p := line[..j + 1];
    assert p[..|p| - 1] == line[..j];
    KeepPrefix(line, filter, j + 1);
  }

  /** Every kept character is the character at some position in the filter,
      the one with exactly as many kept positions before it. */
  lemma {:induction false} KeepOrigin(line: string, filter: set<int>, k: nat)
    requires k < |Keep(line, filter)|
    ensures exists j :: 0 <= j < |line| && j in filter && |Keep(line[..j], filter)| == k
                        && Keep(line, filter)[k] == line[j]
  {
    var init := line[..|line| - 1];
    if k < |Keep(init, filter)| {
      KeepOrigin(init, filter, k);
      var j :| 0 <= j < |init| && j in filter && |Keep(init[..j], filter)| == k && Keep(init, filter)[k] == init[j];
      assert init[..j] == line[..j];
    } else {
      assert line[..|line| - 1] == init;
    }
  }

  /** The filtered line has one character per position of the line that is
      in the filter. */
  lemma {:induction false} KeepCount(line: string, filter: set<int>)
    ensures |Keep(line, filter)| == |set i | 0 <= i < |line| && i in filter|
  {
    if line != [] {
      var init := line[..|line| - 1];
      KeepCount(init, filter);
      var before := set i | 0 <= i < |init| && i in filter;
      var after := set i | 0 <= i < |line| && i in filter;
      if |init| in filter {
        assert after == before + {|init|};
      } else {
        assert after == before;
      }
    }
  }

  lemma {:induction false} KeepLacks(line: string, filter: set<int>, c: char)
    requires Lacks(line, c)
    ensures Lacks(Keep(line, filter), c)
  {
    if line != [] {
      KeepLacks(line[..|line| - 1], filter, c);
    }
  }

  /** A CSV line of two or more values is the line of all but the last, a
      comma and the last. */
  lemma CsvSnoc(vals: string)
    requires |vals| > 1
    ensures CsvLine(vals) == CsvLine(vals[..|vals| - 1]) + "," + [vals[|vals| - 1]]
  {
    var parts := Singles(vals);
    assert parts[..|parts| - 1] == Singles(vals[..|vals| - 1]);
  }

  /** A CSV line has one comma between consecutive values. */
  lemma {:induction false} CsvLength(vals: string)
    ensures |CsvLine(vals)| == if vals == [] then 0 else 2 * |vals| - 1
  {
    if |vals| > 1 {
      CsvSnoc(vals);
      CsvLength(vals[..|vals| - 1]);
    } else if |vals| == 1 {
      assert vals == [vals[0]];
      assert Singles(vals) == [vals];
    }
  }

  /** Dropping the commas of a CSV line of comma-free values gives the values
      back. */
  lemma {:induction false} CsvRemove(vals: string)
    requires Lacks(vals, ',')
    ensures RemoveChar(CsvLine(vals), ',') == vals
  {
    if |vals| > 1 {
      var init := vals[..|vals| - 1];
      var x := vals[|vals| - 1];
      CsvSnoc(vals);
      CsvRemove(init);
      RemoveCommaSnoc(CsvLine(init), x);
      assert vals == init + [x];
    } else if |vals| == 1 {
      assert vals == [vals[0]];
      assert Singles(vals) == [vals];
      RemoveAbsent(vals, ',');
    }
  }

  /** Dropping the commas of `a`, a comma and a value that is no comma. */
  lemma RemoveCommaSnoc(a: string, x: char)
    requires x != ','
    ensures RemoveChar(a + "," + [x], ',') == RemoveChar(a, ',') + [x]
  {
    var s := a + ",";
    assert s[..|s| - 1] == a && s[|s| - 1] == ',';
    var t := s + [x];
    assert t[..|t| - 1] == s;
  }

  lemma BitsLineLacks(row: seq<byte>, numChannels: int, c: char)
    requires c != '0' && c != '1'
    ensures Lacks(BitsLine(row, numChannels), c)
  {
  }

  lemma {:induction false} HexRowLacksNewline(row: seq<byte>)
    ensures Lacks(HexRow(row), '\n')
  {
    if row != [] {
      HexRowLacksNewline(row[..|row| - 1]);
    }
  }

  /** No exported line holds a newline. */
  lemma LinesLackNewline(data: seq<seq<byte>>, numChannels: int, format: string, filter: Option<set<int>>)
    ensures forall i :: 0 <= i < |data| ==> Lacks(ExportLines(data, numChannels, format, filter)[i], '\n')
  {
    forall i | 0 <= i < |data| ensures Lacks(ExportLines(data, numChannels, format, filter)[i], '\n') {
      var bits := BitsLine(data[i], numChannels);
      BitsLineLacks(data[i], numChannels, '\n');
      var vals := Selected(bits, filter);
      if filter.Some? {
        KeepLacks(bits, filter.value, '\n');
      }
      if format == "csv" {
        JoinLacks(Singles(vals), ",", '\n');
      } else if format == "hex" {
        HexRowLacksNewline(data[i]);
      }
    }
  }

  /** The export is empty exactly when the matrix has no element. */
  lemma ExportEmpty(data: seq<seq<byte>>, unitSize: nat, numChannels: int, format: string, filter: Option<set<int>>)
    requires Rectangular(data, unitSize)
    ensures Export(data, unitSize, numChannels, format, filter) == "" <==> |data| * unitSize == 0
  {
  }

  /** A non-empty export ends in a newline and splits, at its newlines, into
      exactly one line per sample. */
  lemma ExportSplits(data: seq<seq<byte>>, unitSize: nat, numChannels: int, format: string, filter: Option<set<int>>)
    requires Rectangular(data, unitSize) && |data| * unitSize != 0
    ensures var out := Export(data, unitSize, numChannels, format, filter);
            && out != [] && out[|out| - 1] == '\n'
            && SplitOn(out[..|out| - 1], '\n') == ExportLines(data, numChannels, format, filter)
  {
    var lines := ExportLines(data, numChannels, format, filter);
    var out := Export(data, unitSize, numChannels, format, filter);
    assert out[..|out| - 1] == Join(lines, "\n");
    LinesLackNewline(data, numChannels, format, filter);
    SplitOnJoin(lines, '\n');
  }

  /** The `hex` format ignores the channel filter. */
  lemma HexIgnoresFilter(data: seq<seq<byte>>, unitSize: nat, numChannels: int, f1: Option<set<int>>, f2: Option<set<int>>)
    requires Rectangular(data, unitSize)
    ensures Export(data, unitSize, numChannels, "hex", f1) == Export(data, unitSize, numChannels, "hex", f2)
  {
  }

  /** A `csv` line without its commas is the `bits` line of the same sample
      and filter. */
  lemma CsvMatchesBits(data: seq<seq<byte>>, numChannels: int, filter: Option<set<int>>, i: nat)
    requires i < |data|
    ensures RemoveChar(ExportLines(data, numChannels, "csv", filter)[i], ',')
            == ExportLines(data, numChannels, "bits", filter)[i]
  {
    var bits := BitsLine(data[i], numChannels);
    BitsLineLacks(data[i], numChannels, ',');
    if filter.Some? {
      KeepLacks(bits, filter.value, ',');
    }
    CsvRemove(Selected(bits, filter));
  }

  /** A filter holding every channel position exports what no filter does. */
  lemma FullFilter(data: seq<seq<byte>>, unitSize: nat, numChannels: int, format: string, filter: set<int>)
    requires Rectangular(data, unitSize)
    requires forall p :: 0 <= p < 8 * unitSize ==> p in filter
    ensures Export(data, unitSize, numChannels, format, Some(filter))
            == Export(data, unitSize, numChannels, format, None)
  {
    forall i | 0 <= i < |data|
      ensures Selected(BitsLine(data[i], numChannels), Some(filter)) == BitsLine(data[i], numChannels)
    {
      KeepAll(BitsLine(data[i], numChannels), filter);
    }
    assert ExportLines(data, numChannels, format, Some(filter)) == ExportLines(data, numChannels, format, None);
  }
}
