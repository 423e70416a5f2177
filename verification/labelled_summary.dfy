/**
 * `summarize_capture_data` over labelled bit lines (`A0:11110000 1111`):
 * the bits of each label are concatenated in encounter order and each
 * channel's samples, high samples and edges are counted.
 */
module LabelledSummary {
  import opened Wrappers
  import opened PyText
  import opened ChannelStats

  const NoSampleLines := "No sample data to summarize."
  const NoChannelLines := "No sample data to summarize " + "(could not parse channel data)."

  /** One usable line: its label and its bits without the spaces. */
  datatype Record = Record(name: string, bits: string)

  /** What the summarizer reports about one channel. */
  datatype Channel = Channel(name: string, total: nat, high: nat, edges: nat, activity: Activity)

  datatype CaptureSummary =
    | NoSamples
    | Unparsable
    | Summary(totalSamples: nat, channels: seq<Channel>)

  /** `all(c in "01 " for c in data)`. */
  predicate BitText(data: string) {
    forall i :: 0 <= i < |data| ==> data[i] == '0' || data[i] == '1' || data[i] == ' '
  }

  /** A line is used when it has a `:` and the stripped text after the first
      one is non-empty and made of `0`, `1` and spaces only. */
  function ParseLine(line: string): (r: Option<Record>)
    ensures r.Some? ==> r.value.bits != "" && IsBits(r.value.bits)
  {
    if !Contains(line, ":") then None
    else
      var name := Strip(Before(line, ":"));
      var data := Strip(After(line, ":"));
      if data == "" || !BitText(data) then None
      else
        var bits := RemoveChar(data, ' ');
        RemoveSpaces(data);
        if bits == "" then None else Some(Record(name, bits))
  }

  lemma {:induction false} RemoveSpaces(data: string)
    requires BitText(data)
    ensures IsBits(RemoveChar(data, ' '))
  {
    if data != [] {
      RemoveSpaces(data[..|data| - 1]);
    }
  }

  function RecordOf(line: string): seq<Record> {
    match ParseLine(line) case Some(r) => [r] case None => []
  }

  /** The usable lines, in order. */
  function RecordsOf(lines: seq<string>): seq<Record> {
    if lines == [] then [] else RecordsOf(lines[..|lines| - 1]) + RecordOf(lines[|lines| - 1])
  }

  /** The labels in the order they are first seen. */
  function Labels(recs: seq<Record>): seq<string> {
    if recs == [] then []
    else
      var ls := Labels(recs[..|recs| - 1]);
      var l := recs[|recs| - 1].name;
      if l in ls then ls else ls + [l]
  }

  /** The bit groups of one label, in order. */
  function PiecesFor(recs: seq<Record>, name: string): seq<string> {
    if recs == [] then []
    else PiecesFor(recs[..|recs| - 1], name) + (if recs[|recs| - 1].name == name then [recs[|recs| - 1].bits] else [])
  }

  /** The statistics of one channel over its concatenated bits. */
  function ChannelOf(name: string, allBits: string): Channel {
    var high := CountChar(allBits, '1');
    var edges := Edges(allBits);
    Channel(name, |allBits|, high, edges, ActivityOf(high, |allBits|, edges))
  }

  /** One channel per label, in first-seen order, over its concatenated
      groups. */
  function ChannelsOf(recs: seq<Record>): (cs: seq<Channel>)
    ensures |cs| == |Labels(recs)|
    ensures forall i :: 0 <= i < |cs| ==> cs[i].name == Labels(recs)[i]
  {
    var labels := Labels(recs);
    seq(|labels|, i requires 0 <= i < |labels| => ChannelOf(labels[i], Join(PiecesFor(recs, labels[i]), "")))
  }

  function Summarize(raw: string): CaptureSummary {
    var lines := Lines(raw);
    if lines == [] then NoSamples
    else
      var recs := RecordsOf(lines);
      if recs == [] then Unparsable
      else
        var channels := ChannelsOf(recs);
        Summary(if channels != [] then channels[0].total else 0, channels)
  }

  /** The first line of the summarizer's text. */
  function Headline(s: CaptureSummary): string {
    match s
    case NoSamples => NoSampleLines
    case Unparsable => NoChannelLines
    case Summary(total, channels) =>
      "Capture summary: " + NatToString(total) + " samples, " + NatToString(|channels|) + " channels"
  }

  // ---------------------------------------------------------------------
  // The summarizer's loops
  // ---------------------------------------------------------------------

  /** The `channel_bits` dictionary and `channel_order` list after some
      records: one entry per name, in first-seen order, holding its groups. */
  ghost predicate Grouped(channelBits: map<string, seq<string>>, order: seq<string>, recs: seq<Record>) {
    && order == Labels(recs)
    && (forall l :: l in channelBits <==> l in order)
    && (forall l :: l in channelBits ==> channelBits[l] == PiecesFor(recs, l))
  }

  /** `summarize_capture_data`, up to the text of the per-channel rows. */
  method SummarizeCaptureData(raw: string) returns (r: CaptureSummary)
    ensures r == Summarize(raw)
  {
    var lines := Lines(raw);
    if lines == [] {
      return NoSamples;
    }
    var channelBits, channelOrder := GroupLines(lines);
    ghost var recs := RecordsOf(lines);
    EmptyGroups(channelBits, channelOrder, recs);
    if channelBits == map[] {
      return Unparsable;
    }
    var channels := ChannelRows(channelBits, channelOrder, recs);
    assert |channels| == |channelOrder| > 0;
    r := Summary(channels[0].total, channels);
  }

  /** The line loop: `channel_bits` and `channel_order` over every line. */
  method GroupLines(lines: seq<string>) returns (channelBits: map<string, seq<string>>, channelOrder: seq<string>)
    ensures Grouped(channelBits, channelOrder, RecordsOf(lines))
  {
    channelBits, channelOrder := map[], [];
    var i := 0;
    while i < |lines|
      invariant 0 <= i <= |lines|
      invariant Grouped(channelBits, channelOrder, RecordsOf(lines[..i]))
    {
      assert lines[..i + 1][..i] == lines[..i];
      channelBits, channelOrder := AddLine(lines[i], channelBits, channelOrder, RecordsOf(lines[..i]));
      i := i + 1;
    }
    assert lines[..i] == lines;
  }

  /** The channel loop: one row per name of `channel_order`. */
  method ChannelRows(channelBits: map<string, seq<string>>, channelOrder: seq<string>, ghost recs: seq<Record>)
    returns (channels: seq<Channel>)
    requires Grouped(channelBits, channelOrder, recs)
    ensures channels == ChannelsOf(recs)
  {
    channels := [];
    for k := 0 to |channelOrder|
      invariant channels == ChannelsOf(recs)[..k]
    {
      var c := RowOf(channelBits, channelOrder, recs, k);
      channels := channels + [c];
    }
  }

  /** The row of name `k` of `channel_order`. */
  method RowOf(channelBits: map<string, seq<string>>, channelOrder: seq<string>, ghost recs: seq<Record>, k: nat)
    returns (c: Channel)
    requires Grouped(channelBits, channelOrder, recs) && k < |channelOrder|
    ensures ChannelsOf(recs)[..k + 1] == ChannelsOf(recs)[..k] + [c]
  {
    var name := channelOrder[k];
    c := ChannelRow(name, Join(channelBits[name], ""));
  }

  /** The counts of one channel over its concatenated bits. */
  method ChannelRow(name: string, allBits: string) returns (c: Channel)
    ensures c == ChannelOf(name, allBits)
  {
    var total := |allBits|;
    var high := CountChar(allBits, '1');
    var edges := CountEdges(allBits);
    c := Channel(name, total, high, edges, ActivityOf(high, total, edges));
  }

  /** The body of the line loop: a usable line adds its bits under its label,
      first registering a new name at the end of the order. */
  method AddLine(line: string, bits0: map<string, seq<string>>, order0: seq<string>, ghost recs: seq<Record>)
    returns (channelBits: map<string, seq<string>>, channelOrder: seq<string>)
    requires Grouped(bits0, order0, recs)
    ensures Grouped(channelBits, channelOrder, recs + RecordOf(line))
  {
    channelBits, channelOrder := bits0, order0;
    var parsed := ParseLine(line);
    if parsed.None? {
      assert recs + RecordOf(line) == recs;
      return;
    }
    assert RecordOf(line) == [parsed.value];
    channelBits, channelOrder := AddRecord(parsed.value.name, parsed.value.bits, bits0, order0, recs);
  }

  /** A usable line's bits under its label, a new name joining the order. */
  method AddRecord(name: string, bits: string, bits0: map<string, seq<string>>, order0: seq<string>,
                   ghost recs: seq<Record>)
    returns (channelBits: map<string, seq<string>>, channelOrder: seq<string>)
    requires Grouped(bits0, order0, recs)
    ensures Grouped(channelBits, channelOrder, recs + [Record(name, bits)])
  {
    channelBits, channelOrder := bits0, order0;
    if name !in channelBits {
      channelBits := channelBits[name := []];
      channelOrder := channelOrder + [name];
    }
    channelBits := channelBits[name := channelBits[name] + [bits]];
    assert channelBits == bits0[name := (if name in bits0 then bits0[name] else []) + [bits]];
    GroupedStep(bits0, order0, recs, Record(name, bits));
  }

  /** Adding one record to the end: its label joins the order when new, and
      its bits join that label's groups. */
  lemma RecordSnoc(recs: seq<Record>, r: Record)
    ensures Labels(recs + [r]) == if r.name in Labels(recs) then Labels(recs) else Labels(recs) + [r.name]
    ensures forall l :: PiecesFor(recs + [r], l) == PiecesFor(recs, l) + (if r.name == l then [r.bits] else [])
  {
    var recs' := recs + [r];
    assert recs'[..|recs'| - 1] == recs;
  }

  /** A name that is not a label has no groups. */
  lemma {:induction false} NoPiecesOutsideLabels(recs: seq<Record>, name: string)
    requires name !in Labels(recs)
    ensures PiecesFor(recs, name) == []
  {
    if recs != [] {
      var init := recs[..|recs| - 1];
      assert name !in Labels(init);
      NoPiecesOutsideLabels(init, name);
    }
  }

  lemma GroupedStep(m: map<string, seq<string>>, order: seq<string>, recs: seq<Record>, r: Record)
    requires Grouped(m, order, recs)
    ensures var m' := m[r.name := (if r.name in m then m[r.name] else []) + [r.bits]];
            var order' := if r.name in m then order else order + [r.name];
            Grouped(m', order', recs + [r])
  {
    RecordSnoc(recs, r);
    var m' := m[r.name := (if r.name in m then m[r.name] else []) + [r.bits]];
    var order' := if r.name in m then order else order + [r.name];
    var recs' := recs + [r];
    assert order' == Labels(recs');
    forall l ensures l in m' <==> l in order' {
    }
    forall l | l in m' ensures m'[l] == PiecesFor(recs', l) {
      if l == r.name && r.name !in m {
        NoPiecesOutsideLabels(recs, l);
        assert [] + [r.bits] == [r.bits];
      }
    }
  }

  /** The dictionary is empty exactly when no line was usable, and then the
      order is empty too. */
  lemma EmptyGroups(m: map<string, seq<string>>, order: seq<string>, recs: seq<Record>)
    requires Grouped(m, order, recs)
    ensures m == map[] <==> recs == []
    ensures m != map[] ==> order != []
  {
    if recs != [] {
      LabelsNonEmpty(recs);
      assert order[0] in m;
    } else {
      assert forall l :: l !in m;
      assert m.Keys == {};
    }
  }

  lemma LabelsNonEmpty(recs: seq<Record>)
    requires recs != []
    ensures Labels(recs) != []
  {
    var ls := Labels(recs[..|recs| - 1]);
    if recs[|recs| - 1].name in ls {
      assert ls != [];
    }
  }

  /** The edge-counting loop `for i in range(1, total)`. */
  method CountEdges(s: string) returns (edges: nat)
    ensures edges == Edges(s)
  {
    edges := 0;
    if |s| < 2 {
      return;
    }
    var i := 1;
    while i < |s|
      invariant 1 <= i <= |s|
      invariant edges == Edges(s[..i])
    {
      assert s[..i + 1][..i] == s[..i];
      if s[i] != s[i - 1] {
        edges := edges + 1;
      }
      i := i + 1;
    }
    assert s[..i] == s;
  }

  // ---------------------------------------------------------------------
  // What the summary promises
  // ---------------------------------------------------------------------

  /** The channels are the distinct labels of the usable lines, each once, in
      the order they are first seen. */
  lemma {:induction false} LabelsDistinct(recs: seq<Record>)
    ensures forall i, j :: 0 <= i < j < |Labels(recs)| ==> Labels(recs)[i] != Labels(recs)[j]
    ensures forall l :: l in Labels(recs) <==> exists k :: 0 <= k < |recs| && recs[k].name == l
  {
    if recs != [] {
      var init := recs[..|recs| - 1];
      LabelsDistinct(init);
      forall l ensures l in Labels(recs) <==> exists k :: 0 <= k < |recs| && recs[k].name == l {
        if exists k :: 0 <= k < |init| && init[k].name == l {
          var k :| 0 <= k < |init| && init[k].name == l;
          assert recs[k] == init[k];
        }
        if exists k :: 0 <= k < |recs| && recs[k].name == l {
          var k :| 0 <= k < |recs| && recs[k].name == l;
          if k < |init| {
            assert init[k] == recs[k];
          }
        }
      }
    }
  }

  /** Concatenating one more group to a channel's bits. */
  lemma JoinSnoc(pieces: seq<string>, bits: string)
    ensures Join(pieces + [bits], "") == Join(pieces, "") + bits
  {
    var ps := pieces + [bits];
    if pieces == [] {
      assert ps == [bits];
      assert "" + bits == bits;
    } else {
      assert ps[..|ps| - 1] == pieces;
      assert Join(pieces, "") + "" == Join(pieces, "");
    }
  }

  /** A channel's bits are its groups in order, so its edges include those
      where one line's last sample differs from the next line's first. */
  lemma ChannelBitsAppend(pieces: seq<string>, bits: string)
    ensures var before := Join(pieces, "");
            Edges(Join(pieces + [bits], ""))
            == Edges(before) + Edges(bits) + (if before != [] && bits != [] && before[|before| - 1] != bits[0] then 1 else 0)
  {
    JoinSnoc(pieces, bits);
    EdgesAppend(Join(pieces, ""), bits);
  }

  lemma IsBitsAppend(a: string, b: string)
    requires IsBits(a) && IsBits(b)
    ensures IsBits(a + b)
  {
    forall i | 0 <= i < |a + b| ensures (a + b)[i] == '0' || (a + b)[i] == '1' {
      if i >= |a| {
        assert (a + b)[i] == b[i - |a|];
      }
    }
  }

  /** Every record of a usable line holds non-empty `0`/`1` text. */
  predicate AllBits(recs: seq<Record>) {
    forall k :: 0 <= k < |recs| ==> recs[k].bits != "" && IsBits(recs[k].bits)
  }

  /** A channel's concatenated bits are non-empty `0`s and `1`s. */
  lemma {:induction false} ChannelBitsAreBits(recs: seq<Record>, name: string)
    requires AllBits(recs)
    requires name in Labels(recs)
    ensures var all := Join(PiecesFor(recs, name), "");
            all != [] && IsBits(all)
  {
    var init := recs[..|recs| - 1];
    var r := recs[|recs| - 1];
    assert recs == init + [r];
    RecordSnoc(init, r);
    assert AllBits(init) by {
      forall k | 0 <= k < |init| ensures init[k] == recs[k] { }
    }
    var before := Join(PiecesFor(init, name), "");
    if r.name == name {
      if name in Labels(init) {
        ChannelBitsAreBits(init, name);
      } else {
        NoPiecesOutsideLabels(init, name);
        assert before == "";
      }
      assert PiecesFor(recs, name) == PiecesFor(init, name) + [r.bits];
      JoinSnoc(PiecesFor(init, name), r.bits);
      IsBitsAppend(before, r.bits);
    } else {
      assert name in Labels(init);
      ChannelBitsAreBits(init, name);
      assert PiecesFor(recs, name) == PiecesFor(init, name) + [] == PiecesFor(init, name);
    }
  }

  lemma {:induction false} RecordsAreBits(lines: seq<string>)
    ensures AllBits(RecordsOf(lines))
  {
    if lines != [] {
      RecordsAreBits(lines[..|lines| - 1]);
    }
  }

  /** No channel of a labelled summary is ever `static`. */
  lemma NeverStatic(raw: string)
    ensures Summarize(raw).Summary? ==>
              forall i :: 0 <= i < |Summarize(raw).channels| ==> Summarize(raw).channels[i].activity != Static
  {
    var lines := Lines(raw);
    var recs := RecordsOf(lines);
    if Summarize(raw).Summary? {
      RecordsAreBits(lines);
      var labels := Labels(recs);
      var cs := ChannelsOf(recs);
      assert Summarize(raw).channels == cs;
      forall i | 0 <= i < |cs| ensures cs[i].activity != Static {
        var all := Join(PiecesFor(recs, labels[i]), "");
        assert cs[i] == ChannelOf(labels[i], all);
        ChannelBitsAreBits(recs, labels[i]);
        BitsNeverStatic(all);
      }
    }
  }
}
