/**
 * The text work around `sigrok-cli`: reading the device list of `--scan`
 * and the decoder section of `--list-supported`, and building the argument
 * lists of a capture and of a decode. Running the program is not modelled:
 * its output is a parameter and the argument list is the result.
 */
module SigrokCli {
  import opened Wrappers
  import opened PyText
  import opened Dicts

  // ---------------------------------------------------------------------
  // scan_devices
  // ---------------------------------------------------------------------

  datatype Device = Device(driver: string, description: string)

  datatype ScanError = DeviceNotFoundError(message: string)

  /** A description as the scan reports it: a stripped, non-blank line
      that is not the `The following devices were found:` header. */
  predicate IsDescription(l: string) {
    l != "" && !StartsWith(l, "The following") && !IsSpace(l[0]) && !IsSpace(l[|l| - 1])
  }

  /** The device a line names, if any. */
  function DeviceOf(line: string): (r: Option<string>)
    ensures r.Some? ==> IsDescription(r.value)
  {
    var l := Strip(line);
    if l == "" || StartsWith(l, "The following") then None else Some(l)
  }

  /** The devices of the lines' results, in order. */
  function Devices(rs: seq<Option<string>>, driver: string): (ds: seq<Device>)
    ensures |ds| <= |rs|
  {
    if rs == [] then []
    else
      var r := rs[|rs| - 1];
      Devices(rs[..|rs| - 1], driver) + (if r.Some? then [Device(driver, r.value)] else [])
  }

  function LineResults(lines: seq<string>): (rs: seq<Option<string>>)
    ensures |rs| == |lines|
  {
    seq(|lines|, i requires 0 <= i < |lines| => DeviceOf(lines[i]))
  }

  function NoDevicesMessage(driver: string): string {
    "No devices found with driver '" + driver + "'. Check USB connection and permissions (udev rules)."
  }

  function Scan(output: string, driver: string): Result<seq<Device>, ScanError> {
    var ds := Devices(LineResults(Lines(output)), driver);
    if ds == [] then Err(DeviceNotFoundError(NoDevicesMessage(driver))) else Ok(ds)
  }

  /** The parsing part of `scan_devices`. */
  method ScanDevices(output: string, driver: string) returns (r: Result<seq<Device>, ScanError>)
    ensures r == Scan(output, driver)
  {
    var lines := Lines(output);
    ghost var rs := LineResults(lines);
    var devices: seq<Device> := [];
    for i := 0 to |lines|
      invariant devices == Devices(rs[..i], driver)
    {
      assert rs[..i + 1][..i] == rs[..i];
      assert rs[i] == DeviceOf(lines[i]);
      var line := Strip(lines[i]);
      if line == "" || StartsWith(line, "The following") {
        continue;
      }
      devices := devices + [Device(driver, line)];
    }
    assert rs[..|lines|] == rs;
    if devices == [] {
      return Err(DeviceNotFoundError(NoDevicesMessage(driver)));
    }
    return Ok(devices);
  }

  /** Every device is tagged with the driver and described by one device
      line; there is none exactly when no line names one. */
  lemma {:induction false} DevicesOfResults(rs: seq<Option<string>>, driver: string)
    requires forall i :: 0 <= i < |rs| ==> rs[i].Some? ==> IsDescription(rs[i].value)
    ensures forall k :: 0 <= k < |Devices(rs, driver)| ==>
              Devices(rs, driver)[k].driver == driver && IsDescription(Devices(rs, driver)[k].description)
    ensures Devices(rs, driver) == [] <==> forall i :: 0 <= i < |rs| ==> rs[i].None?
  {
    if rs != [] {
      var init := rs[..|rs| - 1];
      DevicesOfResults(init, driver);
      assert forall i :: 0 <= i < |init| ==> init[i] == rs[i];
    }
  }

  /** The scan fails, with the driver named in its message, exactly when no
      line of the output names a device; otherwise every device found carries
      the driver and a stripped description that is not the header. */
  lemma ScanOutcome(output: string, driver: string)
    ensures Scan(output, driver).Err? <==> forall i :: 0 <= i < |Lines(output)| ==> DeviceOf(Lines(output)[i]).None?
    ensures Scan(output, driver).Err? ==> Scan(output, driver).error.message == NoDevicesMessage(driver)
    ensures Scan(output, driver).Ok? ==>
              forall k :: 0 <= k < |Scan(output, driver).value| ==>
                Scan(output, driver).value[k].driver == driver && IsDescription(Scan(output, driver).value[k].description)
  {
    var lines := Lines(output);
    var rs := LineResults(lines);
    var ds := Devices(rs, driver);
    assert Scan(output, driver) == if ds == [] then Err(DeviceNotFoundError(NoDevicesMessage(driver))) else Ok(ds);
    assert forall i :: 0 <= i < |rs| ==> rs[i] == DeviceOf(lines[i]);
    DevicesOfResults(rs, driver);
  }

  // ---------------------------------------------------------------------
  // list_decoders
  // ---------------------------------------------------------------------

  datatype Decoder = Decoder(id: string, description: string)

  /** A line holding `protocol decoders` in any letter case opens the section. */
  predicate IsSectionHeader(line: string) {
    Contains(Lower(line), "protocol decoders")
  }

  /** Index of the first whitespace character, or `|s|`. */
  function WordEnd(s: string): (k: nat)
    ensures k <= |s|
    ensures k < |s| ==> IsSpace(s[k])
    ensures forall j :: 0 <= j < k ==> !IsSpace(s[j])
  {
    if s == [] || IsSpace(s[0]) then 0 else 1 + WordEnd(s[1..])
  }

  /** `s.split(None, 1)` of a stripped line: the first word is the id and
      what follows the whitespace after it is the description, or `""`. */
  function DecoderOf(s: string): Decoder {
    var k := WordEnd(s);
    Decoder(s[..k], LStrip(s[k..]))
  }

  /** What one line of `--list-supported` is to the reader, checked in the
      reader's order. */
  datatype ListLine = SectionHeader | SupportedHeader | Blank | Entry(decoder: Decoder)

  function ClassifyLine(line: string): ListLine {
    if IsSectionHeader(line) then SectionHeader
    else if StartsWith(line, "Supported ") then SupportedHeader
    else if Strip(line) == "" then Blank
    else Entry(DecoderOf(Strip(line)))
  }

  function Classified(lines: seq<string>): (ks: seq<ListLine>)
    ensures |ks| == |lines|
  {
    seq(|lines|, i requires 0 <= i < |lines| => ClassifyLine(lines[i]))
  }

  /**
   * The decoders read from the remaining lines, `inDecoders` telling whether
   * the section has been entered: every header line (re)enters it and is
   * skipped, a `Supported ` line inside the section ends the reading, and
   * inside the section every non-blank line is one decoder.
   */
  function DecodersFrom(ks: seq<ListLine>, inDecoders: bool): seq<Decoder> {
    if ks == [] then []
    else
      match ks[0]
      case SectionHeader => DecodersFrom(ks[1..], true)
      case SupportedHeader => if inDecoders then [] else DecodersFrom(ks[1..], false)
      case Blank => DecodersFrom(ks[1..], inDecoders)
      case Entry(d) => (if inDecoders then [d] else []) + DecodersFrom(ks[1..], inDecoders)
  }

  function Decoders(output: string): seq<Decoder> {
    DecodersFrom(Classified(SplitLines(output)), false)
  }

  /** Whether the line ends the reading. */
  predicate Stops(k: ListLine, inDecoders: bool) {
    k.SupportedHeader? && inDecoders
  }

  /** The decoder the line contributes, if any. */
  function Emitted(k: ListLine, inDecoders: bool): seq<Decoder> {
    if k.Entry? && inDecoders then [k.decoder] else []
  }

  /** Whether the section is entered after the line. */
  predicate NextIn(k: ListLine, inDecoders: bool) {
    k.SectionHeader? || inDecoders
  }

  /** The parsing part of `list_decoders`, with its `in_decoders` flag. */
  method ListDecoders(output: string) returns (decoders: seq<Decoder>)
    ensures decoders == Decoders(output)
  {
    var lines := SplitLines(output);
    decoders := [];
    var inDecoders := false;
    for i := 0 to |lines|
      invariant decoders + DecodersFrom(Classified(lines)[i..], inDecoders) == Decoders(output)
    {
      var stop, entry, inSection := ReadStep(lines, i, inDecoders);
      if stop {
        return;
      }
      decoders, inDecoders := decoders + entry, inSection;
    }
    assert Classified(lines)[|lines|..] == [];
  }

  /** Line `i` of the reading: what it ends, adds and enters. */
  method ReadStep(lines: seq<string>, i: nat, inDecoders: bool) returns (stop: bool, entry: seq<Decoder>, inSection: bool)
    requires i < |lines|
    ensures DecodersFrom(Classified(lines)[i..], inDecoders) ==
              if stop then [] else entry + DecodersFrom(Classified(lines)[i + 1..], inSection)
  {
    DecodersStep(Classified(lines), i, inDecoders);
    assert Classified(lines)[i] == ClassifyLine(lines[i]);
    stop, entry, inSection := ReadLine(lines[i], inDecoders);
  }

  /** The body of the reading loop for one line. */
  method ReadLine(line: string, inDecoders: bool) returns (stop: bool, entry: seq<Decoder>, inSection: bool)
    ensures stop == Stops(ClassifyLine(line), inDecoders)
    ensures entry == Emitted(ClassifyLine(line), inDecoders)
    ensures inSection == NextIn(ClassifyLine(line), inDecoders)
  {
    stop, entry, inSection := false, [], inDecoders;
    if IsSectionHeader(line) {
      inSection := true;
      return;
    }
    if StartsWith(line, "Supported ") {
      stop := inDecoders;
      return;
    }
    if inDecoders && Strip(line) != "" {
      entry := [DecoderOf(Strip(line))];
    }
  }

  /** One line of the reading. */
  lemma DecodersStep(ks: seq<ListLine>, i: nat, inDecoders: bool)
    requires i < |ks|
    ensures DecodersFrom(ks[i..], inDecoders) ==
              if Stops(ks[i], inDecoders) then []
              else Emitted(ks[i], inDecoders) + DecodersFrom(ks[i + 1..], NextIn(ks[i], inDecoders))
  {
    assert ks[i..][1..] == ks[i + 1..];
  }

  /** An id is one non-empty word. */
  predicate IsWord(id: string) {
    id != [] && NoSpace(id)
  }

  /** The id of a non-blank stripped line is its first word, and the
      description does not start with whitespace. */
  lemma DecoderOfShape(s: string)
    requires s != [] && !IsSpace(s[0])
    ensures IsWord(DecoderOf(s).id) && StartsWith(s, DecoderOf(s).id)
    ensures DecoderOf(s).description == [] || !IsSpace(DecoderOf(s).description[0])
  {
    var k := WordEnd(s);
    assert k != 0;
    var id := s[..k];
    assert forall j :: 0 <= j < |id| ==> !IsSpace(id[j]);
    var rest := LStrip(s[k..]);
    assert rest == [] || !IsSpace(rest[0]);
  }

  lemma ClassifiedEntries(lines: seq<string>)
    ensures forall i :: 0 <= i < |lines| ==> Classified(lines)[i].Entry? ==> IsWord(Classified(lines)[i].decoder.id)
  {
    forall i | 0 <= i < |lines| && Classified(lines)[i].Entry?
      ensures IsWord(Classified(lines)[i].decoder.id)
    {
      DecoderOfShape(Strip(lines[i]));
    }
  }

  lemma {:induction false} DecodersAreWords(ks: seq<ListLine>, inDecoders: bool)
    requires forall i :: 0 <= i < |ks| ==> ks[i].Entry? ==> IsWord(ks[i].decoder.id)
    ensures forall k :: 0 <= k < |DecodersFrom(ks, inDecoders)| ==> IsWord(DecodersFrom(ks, inDecoders)[k].id)
  {
    if ks != [] {
      DecodersAreWords(ks[1..], true);
      DecodersAreWords(ks[1..], inDecoders);
      DecodersAreWords(ks[1..], false);
    }
  }

  /** Every decoder listed has a one-word id. */
  lemma DecoderIds(output: string)
    ensures forall k :: 0 <= k < |Decoders(output)| ==> IsWord(Decoders(output)[k].id)
  {
    ClassifiedEntries(SplitLines(output));
    DecodersAreWords(Classified(SplitLines(output)), false);
  }

  /** Lines before the first section header yield nothing: the reading
      starts at that header. */
  lemma {:induction false} BeforeSection(ks: seq<ListLine>, m: nat)
    requires m <= |ks|
    requires forall i :: 0 <= i < m ==> ks[i] != SectionHeader
    ensures DecodersFrom(ks, false) == DecodersFrom(ks[m..], false)
  {
    if m > 0 {
      BeforeSection(ks[1..], m - 1);
      assert ks[1..][m - 1..] == ks[m..];
    }
  }

  /** Without a section header nothing is read. */
  lemma {:induction false} NoHeaderNoDecoders(ks: seq<ListLine>)
    requires forall i :: 0 <= i < |ks| ==> ks[i] != SectionHeader
    ensures DecodersFrom(ks, false) == []
  {
    if ks != [] {
      NoHeaderNoDecoders(ks[1..]);
    }
  }

  /** A line is a section header exactly when, lower-cased, it holds
      `protocol decoders`; a `Supported ` line that is not one ends the
      section. */
  lemma HeaderLines(line: string, rest: seq<ListLine>)
    ensures ClassifyLine(line) == SectionHeader <==> IsSectionHeader(line)
    ensures StartsWith(line, "Supported ") && !IsSectionHeader(line) ==>
              DecodersFrom([ClassifyLine(line)] + rest, true) == []
  {
  }

  // ---------------------------------------------------------------------
  // run_capture: the argument list
  // ---------------------------------------------------------------------

  /** Python truthiness of an optional string. */
  predicate Truthy(s: Option<string>) {
    s.Some? && s.value != ""
  }

  /** The sample count: `--samples n`, else `--time ms`, else 1024 samples. */
  function SampleArgs(numSamples: Option<int>, durationMs: Option<int>): seq<string> {
    if numSamples.Some? then ["--samples", IntToString(numSamples.value)]
    else if durationMs.Some? then ["--time", IntToString(durationMs.value)]
    else ["--samples", "1024"]
  }

  /** The options present in every capture. */
  function RateArgs(driver: string, sampleRate: string): seq<string> {
    ["--driver", driver, "--config", "samplerate=" + sampleRate]
  }

  /** An option with its value when the value is truthy. */
  function OptionArgs(flag: string, value: Option<string>): seq<string> {
    if Truthy(value) then [flag, value.value] else []
  }

  function WaitArgs(waitTrigger: bool): seq<string> {
    if waitTrigger then ["--wait-trigger"] else []
  }

  /** What comes before the sample count. */
  function CaptureHead(driver: string, sampleRate: string, channels: Option<string>): seq<string> {
    RateArgs(driver, sampleRate) + OptionArgs("--channels", channels)
  }

  /** What comes after the sample count. */
  function CaptureTail(triggers: Option<string>, waitTrigger: bool, outputFile: string): seq<string> {
    OptionArgs("--triggers", triggers) + WaitArgs(waitTrigger) + ["--output-file", outputFile]
  }

  function CaptureArgs(outputFile: string, driver: string, channels: Option<string>, sampleRate: string,
                       numSamples: Option<int>, durationMs: Option<int>, triggers: Option<string>,
                       waitTrigger: bool): seq<string>
  {
    CaptureHead(driver, sampleRate, channels) + SampleArgs(numSamples, durationMs)
    + CaptureTail(triggers, waitTrigger, outputFile)
  }

  /** The argument list `run_capture` hands to `sigrok-cli`, grown step by step. */
  method BuildCaptureArgs(outputFile: string, driver: string, channels: Option<string>, sampleRate: string,
                          numSamples: Option<int>, durationMs: Option<int>, triggers: Option<string>,
                          waitTrigger: bool) returns (args: seq<string>)
    ensures args == CaptureArgs(outputFile, driver, channels, sampleRate, numSamples, durationMs, triggers, waitTrigger)
  {
    args := ["--driver", driver, "--config", "samplerate=" + sampleRate];
    if Truthy(channels) {
      args := args + ["--channels", channels.value];
    }
    assert args == CaptureHead(driver, sampleRate, channels);
    args := AddSampleArgs(args, numSamples, durationMs);
    args := AddTailArgs(args, triggers, waitTrigger, outputFile);
  }

  /** The sample-count or duration step of `build_capture_args`. */
  method AddSampleArgs(args0: seq<string>, numSamples: Option<int>, durationMs: Option<int>) returns (args: seq<string>)
    ensures args == args0 + SampleArgs(numSamples, durationMs)
  {
    if numSamples.Some? {
      args := args0 + ["--samples", IntToString(numSamples.value)];
    } else if durationMs.Some? {
      args := args0 + ["--time", IntToString(durationMs.value)];
    } else {
      args := args0 + ["--samples", "1024"];
    }
  }

  /** The trigger, wait and output-file steps of `build_capture_args`. */
  method AddTailArgs(args0: seq<string>, triggers: Option<string>, waitTrigger: bool, outputFile: string)
    returns (args: seq<string>)
    ensures args == args0 + CaptureTail(triggers, waitTrigger, outputFile)
  {
    args := args0;
    if Truthy(triggers) {
      args := args + ["--triggers", triggers.value];
    }
    if waitTrigger {
      args := args + ["--wait-trigger"];
    }
    args := args + ["--output-file", outputFile];
    assert args == args0 + CaptureTail(triggers, waitTrigger, outputFile);
  }

  function ValueOr(s: Option<string>): string {
    if s.Some? then s.value else ""
  }

  /** A value the caller passes that does not spell a sample or wait flag. */
  predicate NotFlag(v: string) {
    v != "--samples" && v != "--time" && v != "--wait-trigger"
  }

  /** A capture always starts with the driver and sample rate and ends with
      the output file. */
  lemma CaptureArgsEnds(outputFile: string, driver: string, channels: Option<string>, sampleRate: string,
                        numSamples: Option<int>, durationMs: Option<int>, triggers: Option<string>,
                        waitTrigger: bool)
    ensures var args := CaptureArgs(outputFile, driver, channels, sampleRate, numSamples, durationMs, triggers, waitTrigger);
            && args[..4] == ["--driver", driver, "--config", "samplerate=" + sampleRate]
            && args[|args| - 2..] == ["--output-file", outputFile]
  {
    var head := RateArgs(driver, sampleRate);
    var middle := OptionArgs("--channels", channels) + SampleArgs(numSamples, durationMs)
                  + OptionArgs("--triggers", triggers) + WaitArgs(waitTrigger);
    var out := ["--output-file", outputFile];
    var args := CaptureArgs(outputFile, driver, channels, sampleRate, numSamples, durationMs, triggers, waitTrigger);
    assert args == head + middle + out;
    assert |head| == 4;
    assert args[..4] == head;
    assert args[|args| - 2..] == out;
  }

  /**
   * A capture gives a sample count or a duration, never both, and
   * `--wait-trigger` exactly when asked for (as long as no value the caller
   * passes spells one of those flags).
   */
  lemma CaptureArgsFlags(outputFile: string, driver: string, channels: Option<string>, sampleRate: string,
                         numSamples: Option<int>, durationMs: Option<int>, triggers: Option<string>,
                         waitTrigger: bool)
    requires NotFlag(outputFile) && NotFlag(driver) && NotFlag(ValueOr(channels)) && NotFlag(ValueOr(triggers))
    ensures var args := CaptureArgs(outputFile, driver, channels, sampleRate, numSamples, durationMs, triggers, waitTrigger);
            && ("--time" in args <==> numSamples.None? && durationMs.Some?)
            && ("--samples" in args <==> !(numSamples.None? && durationMs.Some?))
            && ("--wait-trigger" in args <==> waitTrigger)
  {
    HeadHasNoFlag(driver, sampleRate, channels);
    SampleFlags(numSamples, durationMs);
    TailFlags(triggers, waitTrigger, outputFile);
  }

  lemma HeadHasNoFlag(driver: string, sampleRate: string, channels: Option<string>)
    requires NotFlag(driver) && NotFlag(ValueOr(channels))
    ensures forall x :: x in CaptureHead(driver, sampleRate, channels) ==> NotFlag(x)
  {
    var rate := "samplerate=" + sampleRate;
    assert NotFlag(rate) by {
      assert rate[0] == 's';
    }
  }

  lemma SampleFlags(numSamples: Option<int>, durationMs: Option<int>)
    ensures var sa := SampleArgs(numSamples, durationMs);
            && ("--time" in sa <==> numSamples.None? && durationMs.Some?)
            && ("--samples" in sa <==> !(numSamples.None? && durationMs.Some?))
            && "--wait-trigger" !in sa
  {
    var sa := SampleArgs(numSamples, durationMs);
    SampleValueNotFlag(numSamples, durationMs);
    assert sa == [sa[0], sa[1]];
  }

  lemma TailFlags(triggers: Option<string>, waitTrigger: bool, outputFile: string)
    requires NotFlag(outputFile) && NotFlag(ValueOr(triggers))
    ensures var tail := CaptureTail(triggers, waitTrigger, outputFile);
            && "--time" !in tail && "--samples" !in tail
            && ("--wait-trigger" in tail <==> waitTrigger)
  {
  }

  /** A rendered count is never one of the flags. */
  lemma SampleValueNotFlag(numSamples: Option<int>, durationMs: Option<int>)
    ensures NotFlag(SampleArgs(numSamples, durationMs)[1])
  {
    if numSamples.Some? {
      IntToStringStart(numSamples.value);
    } else if durationMs.Some? {
      IntToStringStart(durationMs.value);
    }
  }

  lemma IntToStringStart(n: int)
    ensures var s := IntToString(n); |s| >= 2 ==> IsDigit(s[1])
  {
  }

  // ---------------------------------------------------------------------
  // decode_protocol: the decoder spec and the argument list
  // ---------------------------------------------------------------------

  /** `[f"{k}={v}" for k, v in d.items()]`. */
  function Assignments(d: Dict): (a: seq<string>)
    ensures |a| == |d|
  {
    seq(|d|, i requires 0 <= i < |d| => d[i].0 + "=" + d[i].1)
  }

  /** Python truthiness of an optional dict. */
  function ItemsOf(d: Option<Dict>): seq<string> {
    if d.Some? then Assignments(d.value) else []
  }

  /** `decoder[:sig=ch...][:key=val...]`. */
  function DecoderSpec(decoder: string, options: Option<Dict>, mapping: Option<Dict>): string {
    var opts := ItemsOf(mapping) + ItemsOf(options);
    if opts == [] then decoder else decoder + ":" + Join(opts, ":")
  }

  function DecodeArgs(inputFile: string, decoder: string, options: Option<Dict>, mapping: Option<Dict>,
                      annotationFilter: Option<string>): (args: seq<string>)
    ensures |args| == if Truthy(annotationFilter) then 6 else 4
  {
    ["-i", inputFile, "-P", DecoderSpec(decoder, options, mapping)]
    + (if Truthy(annotationFilter) then ["-A", annotationFilter.value] else [])
  }

  /** The argument list `decode_protocol` hands to `sigrok-cli`. */
  method BuildDecodeArgs(inputFile: string, decoder: string, options: Option<Dict>, mapping: Option<Dict>,
                         annotationFilter: Option<string>) returns (args: seq<string>)
    ensures args == DecodeArgs(inputFile, decoder, options, mapping, annotationFilter)
  {
    var decoderSpec := decoder;
    var opts: seq<string> := [];
    if mapping.Some? && mapping.value != [] {
      opts := opts + Assignments(mapping.value);
    }
    assert opts == ItemsOf(mapping);
    if options.Some? && options.value != [] {
      opts := opts + Assignments(options.value);
    }
    assert opts == ItemsOf(mapping) + ItemsOf(options);
    if opts != [] {
      decoderSpec := decoderSpec + ":" + Join(opts, ":");
    }
    args := ["-i", inputFile, "-P", decoderSpec];
    if Truthy(annotationFilter) {
      args := args + ["-A", annotationFilter.value];
    }
  }

  /** No key or value of the dict holds `c`. */
  predicate DictLacks(d: Option<Dict>, c: char) {
    d.Some? ==> forall i :: 0 <= i < |d.value| ==> Lacks(d.value[i].0, c) && Lacks(d.value[i].1, c)
  }

  /**
   * The spec splits at its colons into the decoder, then one `sig=ch` per
   * mapping entry, then one `key=val` per option, each in its dict's order
   * (when no name or value holds a colon).
   */
  lemma DecoderSpecSplits(decoder: string, options: Option<Dict>, mapping: Option<Dict>)
    requires Lacks(decoder, ':') && DictLacks(options, ':') && DictLacks(mapping, ':')
    ensures SplitOn(DecoderSpec(decoder, options, mapping), ':') == [decoder] + ItemsOf(mapping) + ItemsOf(options)
  {
    var parts := [decoder] + ItemsOf(mapping) + ItemsOf(options);
    SpecJoin(decoder, options, mapping);
    ItemsLack(mapping, ':');
    ItemsLack(options, ':');
    assert forall k :: 0 <= k < |parts| ==> Lacks(parts[k], ':');
    SplitOnJoin(parts, ':');
  }

  /** The spec is the decoder and the assignments joined by colons. */
  lemma SpecJoin(decoder: string, options: Option<Dict>, mapping: Option<Dict>)
    ensures DecoderSpec(decoder, options, mapping) == Join([decoder] + ItemsOf(mapping) + ItemsOf(options), [':'])
  {
    var opts := ItemsOf(mapping) + ItemsOf(options);
    assert [decoder] + ItemsOf(mapping) + ItemsOf(options) == [decoder] + opts;
    if opts == [] {
      assert Join([decoder], ":") == decoder;
    } else {
      JoinCons(decoder, opts, ":");
    }
  }

  /** No assignment holds a character no name or value does (other than `=`). */
  lemma ItemsLack(d: Option<Dict>, c: char)
    requires DictLacks(d, c) && c != '='
    ensures forall k :: 0 <= k < |ItemsOf(d)| ==> Lacks(ItemsOf(d)[k], c)
  {
    forall k | 0 <= k < |ItemsOf(d)| ensures Lacks(ItemsOf(d)[k], c) {
      AssignmentLacks(d.value[k].0, d.value[k].1, c);
    }
  }

  lemma AssignmentLacks(k: string, v: string, c: char)
    requires Lacks(k, c) && Lacks(v, c) && c != '='
    ensures Lacks(k + "=" + v, c)
  {
  }

  /** `-A` and the filter follow the spec exactly when the filter is a
      non-empty string. */
  lemma DecodeArgsShape(inputFile: string, decoder: string, options: Option<Dict>, mapping: Option<Dict>,
                        annotationFilter: Option<string>)
    ensures var args := DecodeArgs(inputFile, decoder, options, mapping, annotationFilter);
            && args[..4] == ["-i", inputFile, "-P", DecoderSpec(decoder, options, mapping)]
            && (|args| == 6 <==> Truthy(annotationFilter))
            && (Truthy(annotationFilter) ==> args[4..] == ["-A", annotationFilter.value])
            && (!Truthy(annotationFilter) ==> |args| == 4)
  {
  }

  /** The spec is the bare decoder exactly when there is no mapping and no
      option entry. */
  lemma BareDecoderSpec(decoder: string, options: Option<Dict>, mapping: Option<Dict>)
    ensures DecoderSpec(decoder, options, mapping) == decoder <==> |ItemsOf(mapping)| + |ItemsOf(options)| == 0
  {
    var opts := ItemsOf(mapping) + ItemsOf(options);
    if opts != [] {
      assert |decoder + ":" + Join(opts, ":")| > |decoder|;
    }
  }
}
