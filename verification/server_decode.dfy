/**
 * The decision logic of the `sigrok_logicanalyzer_mcp` server around a
 * decode: `_parse_key_value_pairs` (the `key=val,key=val` parameters), the
 * choice in `_run_decode` between the cached output and a fresh run of the
 * decoder with an effective annotation filter, and the 5000-sample cap of
 * `get_raw_samples`.
 */
module ServerDecode {
  import opened Wrappers
  import opened PyText
  import opened Dicts
  import opened SummaryFilters
  import opened SigrokCli
  import opened GenericFormatters
  import opened Dispatch

  // ---------------------------------------------------------------------
  // _parse_key_value_pairs
  // ---------------------------------------------------------------------

  /** One comma-separated piece: stripped, kept when it holds `=`, and split
      at its first `=` into a stripped key and a stripped value. */
  function PairOf(piece: string): (e: Option<(string, string)>)
    ensures e.Some? <==> Contains(Strip(piece), "=")
  {
    var pair := Strip(piece);
    if Contains(pair, "=") then Some((Strip(Before(pair, "=")), Strip(After(pair, "="))))
    else None
  }

  /** The pair of every piece, or `None` for a piece without `=`. */
  function PairResults(pieces: seq<string>): (rs: seq<Option<(string, string)>>)
    ensures |rs| == |pieces|
  {
    seq(|pieces|, i requires 0 <= i < |pieces| => PairOf(pieces[i]))
  }

  /** The pairs that are present, in order. */
  function Somes(rs: seq<Option<(string, string)>>): (es: seq<(string, string)>)
    ensures |es| <= |rs|
  {
    if rs == [] then []
    else Somes(rs[..|rs| - 1]) + (if rs[|rs| - 1].Some? then [rs[|rs| - 1].value] else [])
  }

  /** Assigning the pairs one after another into a dict. */
  function PutAll(d: Dict, es: seq<(string, string)>): Dict {
    if es == [] then d
    else
      var last := es[|es| - 1];
      Put(PutAll(d, es[..|es| - 1]), last.0, last.1)
  }

  /** The pairs a parameter text assigns, in order. */
  function Entries(text: string): seq<(string, string)> {
    Somes(PairResults(SplitOn(text, ',')))
  }

  function KeyValuePairs(text: string): Dict {
    PutAll([], Entries(text))
  }

  /** `_parse_key_value_pairs`. */
  method ParseKeyValuePairs(text: string) returns (result: Dict)
    ensures result == KeyValuePairs(text)
  {
    var pieces := SplitOn(text, ',');
    ghost var rs := PairResults(pieces);
    result := [];
    for i := 0 to |pieces|
      invariant result == PutAll([], Somes(rs[..i]))
    {
      SomesStep(rs, i);
      assert rs[i] == PairOf(pieces[i]);
      var pair := Strip(pieces[i]);
      if Contains(pair, "=") {
        var k, v := Before(pair, "="), After(pair, "=");
        result := Put(result, Strip(k), Strip(v));
      }
    }
    assert rs[..|pieces|] == rs;
  }

  lemma SomesStep(rs: seq<Option<(string, string)>>, i: nat)
    requires i < |rs|
    ensures PutAll([], Somes(rs[..i + 1]))
            == if rs[i].Some? then Put(PutAll([], Somes(rs[..i])), rs[i].value.0, rs[i].value.1)
               else PutAll([], Somes(rs[..i]))
  {
    var init := rs[..i + 1];
    assert init[..i] == rs[..i];
    assert Somes(init) == Somes(rs[..i]) + (if rs[i].Some? then [rs[i].value] else []);
    if rs[i].Some? {
      PutAllSnoc([], Somes(rs[..i]), rs[i].value);
    } else {
      assert Somes(init) == Somes(rs[..i]);
    }
  }

  lemma PutAllSnoc(d: Dict, es: seq<(string, string)>, x: (string, string))
    ensures PutAll(d, es + [x]) == Put(PutAll(d, es), x.0, x.1)
  {
    assert (es + [x])[..|es|] == es;
  }

  // ---------------------------------------------------------------------
  // What the parse promises
  // ---------------------------------------------------------------------

  /** `s.find("=")` is the first position of the character `=`. */
  lemma FindChar(s: string, c: char)
    ensures var i := IndexOfChar(s, c);
            Find(s, [c]) == if i == |s| then None else Some(i)
  {
    var i := IndexOfChar(s, c);
    var r := Find(s, [c]);
    forall j: nat | j < i ensures !OccursAt(s, [c], j) {
      if j + 1 <= |s| {
        assert s[j..j + 1] == [s[j]];
      }
    }
    if i < |s| {
      assert s[i..i + 1] == [c];
      assert OccursAt(s, [c], i);
    }
  }

  /** A piece splits at its first `=`: the key is what precedes it and the
      value everything after it, each stripped. */
  lemma PairOfFirstEquals(piece: string)
    ensures var pair := Strip(piece);
            var i := IndexOfChar(pair, '=');
            PairOf(piece) == if i == |pair| then None else Some((Strip(pair[..i]), Strip(pair[i + 1..])))
  {
    SplitFirstEquals(Strip(piece));
  }

  /** `partition("=")` splits at the first `=`, if there is one. */
  lemma SplitFirstEquals(pair: string)
    ensures var i := IndexOfChar(pair, '=');
            && (i == |pair| <==> !Contains(pair, "="))
            && (i < |pair| ==> Before(pair, "=") == pair[..i] && After(pair, "=") == pair[i + 1..])
  {
    FindChar(pair, '=');
    assert "=" == ['='];
  }

  /** So a value may itself hold `=`: only the first one splits. */
  lemma ValueMayHoldEquals(piece: string, key: string, value: string)
    requires Strip(piece) == key + "=" + value && Lacks(key, '=')
    ensures PairOf(piece) == Some((Strip(key), Strip(value)))
  {
    var pair := Strip(piece);
    var i := IndexOfChar(pair, '=');
    assert pair[|key|] == '=';
    assert forall j :: 0 <= j < |key| ==> pair[j] == key[j] && pair[j] != '=';
    assert i == |key|;
    assert pair[..i] == key;
    assert pair[i + 1..] == value;
    PairOfFirstEquals(piece);
  }

  /** Assigning pairs keeps the keys distinct. */
  lemma {:induction false} PutAllDistinct(d: Dict, es: seq<(string, string)>)
    requires Distinct(d)
    ensures Distinct(PutAll(d, es))
  {
    if es != [] {
      var last := es[|es| - 1];
      PutAllDistinct(d, es[..|es| - 1]);
      PutDistinct(PutAll(d, es[..|es| - 1]), last.0, last.1);
    }
  }

  /** The last pair's key gets its value. */
  lemma PutAllLast(d: Dict, es: seq<(string, string)>, k: string)
    requires es != [] && es[|es| - 1].0 == k
    ensures Get(PutAll(d, es), k) == Some(es[|es| - 1].1)
  {
    PutGet(PutAll(d, es[..|es| - 1]), k, es[|es| - 1].1);
  }

  /** Any other key is looked up as before the last pair. */
  lemma PutAllOther(d: Dict, es: seq<(string, string)>, k: string)
    requires es != [] && es[|es| - 1].0 != k
    ensures Get(PutAll(d, es), k) == Get(PutAll(d, es[..|es| - 1]), k)
  {
    var last := es[|es| - 1];
    PutOther(PutAll(d, es[..|es| - 1]), last.0, last.1, k);
  }

  /** A key no pair names keeps what the dict held. */
  lemma {:induction false} UnnamedKey(d: Dict, es: seq<(string, string)>, k: string)
    requires forall j :: 0 <= j < |es| ==> es[j].0 != k
    ensures Get(PutAll(d, es), k) == Get(d, k)
  {
    if es != [] {
      var init := es[..|es| - 1];
      PutAllOther(d, es, k);
      forall j | 0 <= j < |init| ensures init[j].0 != k {
        assert init[j] == es[j];
      }
      UnnamedKey(d, init, k);
    }
  }

  /** The last pair naming a key decides its value. */
  lemma {:induction false} LastPairWins(d: Dict, es: seq<(string, string)>, k: string, j: nat)
    requires j < |es| && es[j].0 == k
    requires forall l :: j < l < |es| ==> es[l].0 != k
    ensures Get(PutAll(d, es), k) == Some(es[j].1)
  {
    var n := |es| - 1;
    if j == n {
      PutAllLast(d, es, k);
    } else {
      assert j < n;
      var init := es[..n];
      PutAllOther(d, es, k);
      assert init[j] == es[j];
      forall l | j < l < |init| ensures init[l].0 != k {
        assert init[l] == es[l];
      }
      LastPairWins(d, init, k, j);
    }
  }

  /** A key some pair names is present after the assignments. */
  lemma {:induction false} NamedKeyPresent(d: Dict, es: seq<(string, string)>, k: string, j: nat)
    requires j < |es| && es[j].0 == k
    ensures Get(PutAll(d, es), k).Some?
  {
    var n := |es| - 1;
    if es[n].0 == k {
      PutAllLast(d, es, k);
    } else {
      assert j < n;
      var init := es[..n];
      PutAllOther(d, es, k);
      assert init[j].0 == k;
      NamedKeyPresent(d, init, k, j);
    }
  }

  /** The parsed dict lists each key once; a key maps to the value of the
      last pair naming it, and is absent exactly when no pair names it. */
  lemma KeyValueLookup(text: string, k: string)
    ensures Distinct(KeyValuePairs(text))
    ensures var es := Entries(text);
            && (Get(KeyValuePairs(text), k).None? <==> forall j :: 0 <= j < |es| ==> es[j].0 != k)
            && forall j :: 0 <= j < |es| && es[j].0 == k && (forall l :: j < l < |es| ==> es[l].0 != k) ==>
                 Get(KeyValuePairs(text), k) == Some(es[j].1)
  {
    var es := Entries(text);
    assert KeyValuePairs(text) == PutAll([], es);
    PutAllDistinct([], es);
    if exists j :: 0 <= j < |es| && es[j].0 == k {
      var j :| 0 <= j < |es| && es[j].0 == k;
      NamedKeyPresent([], es, k, j);
    } else {
      UnnamedKey([], es, k);
    }
    forall j | 0 <= j < |es| && es[j].0 == k && (forall l :: j < l < |es| ==> es[l].0 != k)
      ensures Get(KeyValuePairs(text), k) == Some(es[j].1)
    {
      LastPairWins([], es, k, j);
    }
  }

  // ---------------------------------------------------------------------
  // _run_decode: the filter and the cache
  // ---------------------------------------------------------------------

  /** The table entry replaces the caller's filter only in summary mode and
      only when the caller gave none. */
  function EffectiveFilter(detail: string, annotationFilter: Option<string>, protocol: string): (f: Option<string>)
    ensures Truthy(annotationFilter) ==> f == annotationFilter
    ensures detail != "summary" ==> f == annotationFilter
    ensures detail == "summary" && !Truthy(annotationFilter) ==> f == GetSummaryAnnotationFilter(protocol)
  {
    if detail == "summary" && !Truthy(annotationFilter) then GetSummaryAnnotationFilter(protocol)
    else annotationFilter
  }

  /** A parameter text parsed when it is a non-empty string. */
  function ParsedOption(text: Option<string>): Option<Dict> {
    if Truthy(text) then Some(KeyValuePairs(text.value)) else None
  }

  /** What `_run_decode` does before any decoder output exists. */
  datatype DecodePlan =
    | NotFound(message: string)
    | FromCache(reply: string)
    | RunDecoder(args: seq<string>, summary: bool)

  /**
   * The plan for a decode: the lookup error when the capture is unknown
   * (`lookup` is the capture's `.sr` path or the error's text); outside
   * summary mode the formatted cached output when there is one and neither a
   * filter nor options were given; otherwise the arguments of a fresh run.
   */
  function PlanDecode(lookup: Result<string, string>, protocol: string, channelMapping: Option<string>,
                      options: Option<string>, annotationFilter: Option<string>, detail: string,
                      cached: Option<string>): DecodePlan
  {
    match lookup
    case Err(message) => NotFound(message)
    case Ok(path) =>
      var summary := detail == "summary";
      if !summary && Truthy(cached) && !Truthy(annotationFilter) && !Truthy(options) then
        FromCache(FormatDecodedProtocol(cached.value, 200))
      else
        RunDecoder(DecodeArgs(path, protocol, ParsedOption(options), ParsedOption(channelMapping),
                              EffectiveFilter(detail, annotationFilter, protocol)), summary)
  }

  /** The reply once the decoder ran (`outcome` is its output or the text of
      its `DecoderError`); a summary of `uart` raises `TypeError`. */
  function DecodeReply(summary: bool, protocol: string, outcome: Result<string, string>): (r: Result<string, PyError>)
    ensures outcome.Err? ==> r == Ok("Decoder error: " + outcome.error)
    ensures outcome.Ok? && !summary ==> r == Ok(FormatDecodedProtocol(outcome.value, 200))
    ensures outcome.Ok? && summary ==> (r == Err(TypeError) <==> protocol == "uart")
  {
    if outcome.Err? then Ok("Decoder error: " + outcome.error)
    else if summary then DecodedSummary(outcome.value, protocol, 500)
    else Ok(FormatDecodedProtocol(outcome.value, 200))
  }

  /** The cached output is used exactly outside summary mode, when the cache
      holds text and the caller gave neither a filter nor options; the
      decoder then runs with no filter either. */
  lemma CacheReuse(lookup: Result<string, string>, protocol: string, channelMapping: Option<string>,
                   options: Option<string>, annotationFilter: Option<string>, detail: string,
                   cached: Option<string>)
    ensures var plan := PlanDecode(lookup, protocol, channelMapping, options, annotationFilter, detail, cached);
            && (plan.FromCache? <==>
                  lookup.Ok? && detail != "summary" && Truthy(cached) && !Truthy(annotationFilter) && !Truthy(options))
            && (plan.FromCache? ==> plan.reply == FormatDecodedProtocol(cached.value, 200)
                                    && !Truthy(EffectiveFilter(detail, annotationFilter, protocol)))
            && (lookup.Ok? && detail == "summary" ==> plan.RunDecoder? && plan.summary)
  {
  }

  /**
   * In summary mode without a filter of the caller's, the run passes `-A`
   * with the table's entry exactly when the table has a non-empty one for
   * the protocol; the three transaction decoders get their own classes.
   */
  lemma SummaryRunsWithTableFilter(path: string, protocol: string, channelMapping: Option<string>,
                                   options: Option<string>, annotationFilter: Option<string>,
                                   cached: Option<string>)
    requires !Truthy(annotationFilter)
    ensures var plan := PlanDecode(Ok(path), protocol, channelMapping, options, annotationFilter, "summary", cached);
            var entry := GetSummaryAnnotationFilter(protocol);
            && plan.RunDecoder?
            && plan.args[..4] == ["-i", path, "-P", DecoderSpec(protocol, ParsedOption(options), ParsedOption(channelMapping))]
            && (|plan.args| == 6 <==> Truthy(entry))
            && (Truthy(entry) ==> plan.args[4..] == ["-A", entry.value])
            && (protocol == "i2c" ==> |plan.args| == 6 && plan.args[5] == Classes("i2c", "start:repeat-start:stop:ack:nack:address-read:address-write:data-read:data-write"))
            && (protocol == "uart" ==> |plan.args| == 6 && plan.args[5] == Classes("uart", "rx-data:tx-data"))
  {
    var entry := GetSummaryAnnotationFilter(protocol);
    DecodeArgsShape(path, protocol, ParsedOption(options), ParsedOption(channelMapping), entry);
    TransactionDecoderFilters();
  }

  /** A filter of the caller's wins in either mode, and the cache is then
      never used. */
  lemma CallerFilterWins(path: string, protocol: string, channelMapping: Option<string>,
                         options: Option<string>, annotationFilter: Option<string>, detail: string,
                         cached: Option<string>)
    requires Truthy(annotationFilter)
    ensures var plan := PlanDecode(Ok(path), protocol, channelMapping, options, annotationFilter, detail, cached);
            && plan.RunDecoder?
            && |plan.args| == 6 && plan.args[4..] == ["-A", annotationFilter.value]
  {
    DecodeArgsShape(path, protocol, ParsedOption(options), ParsedOption(channelMapping), annotationFilter);
  }

  // ---------------------------------------------------------------------
  // get_raw_samples
  // ---------------------------------------------------------------------

  /** `min(num_samples, 5000)`. */
  function SampleCap(numSamples: int): (n: int)
    ensures n <= 5000 && n <= numSamples
    ensures n == numSamples || n == 5000
  {
    if numSamples < 5000 then numSamples else 5000
  }

  /** The window `get_raw_samples` formats. */
  function RawSamplesWindow(lines: seq<string>, startSample: int, numSamples: int): Window {
    SampleWindow(lines, startSample, SampleCap(numSamples))
  }

  /** For a non-negative count the window shows at most 5000 samples. */
  lemma CappedWindow(lines: seq<string>, startSample: int, numSamples: int)
    requires numSamples >= 0
    ensures var w := RawSamplesWindow(lines, startSample, numSamples);
            w.Window? ==> |w.shown| <= 5000 && |w.shown| <= numSamples
  {
  }

  /** A negative count passes the cap unchanged and, as a negative slice end,
      shows all but the last sample: 5999 of 6000 from the start. */
  lemma NegativeCountPassesCap(lines: seq<string>)
    requires |lines| == 6000
    ensures var w := RawSamplesWindow(lines, 0, -1);
            w.Window? && |w.shown| == 5999
  {
  }

  /** The count clamped into 0..5000. */
  function BoundedSampleCap(numSamples: int): (n: int)
    ensures 0 <= n <= 5000
    ensures 0 <= numSamples ==> n == SampleCap(numSamples)
  {
    if numSamples < 0 then 0 else SampleCap(numSamples)
  }

  /** The window with the clamped count. */
  function BoundedSamplesWindow(lines: seq<string>, startSample: int, numSamples: int): Window {
    SampleWindow(lines, startSample, BoundedSampleCap(numSamples))
  }

  /** With the clamped count no window shows more than 5000 samples, and a
      non-negative count gives the window `get_raw_samples` formats. */
  lemma BoundedWindow(lines: seq<string>, startSample: int, numSamples: int)
    ensures var w := BoundedSamplesWindow(lines, startSample, numSamples);
            w.Window? ==> |w.shown| <= 5000
    ensures numSamples >= 0 ==> BoundedSamplesWindow(lines, startSample, numSamples)
                                == RawSamplesWindow(lines, startSample, numSamples)
  {
  }
}
