# sigrok logic-analyzer MCP: text formatters, converters and registries

This project is a Dafny model of the logic inside the sigrok MCP servers.
These servers drive `sigrok-cli` and libsigrok for an assistant, and then
turn the captured samples and the decoder output into compact text. The
model covers the parts that compute. Running programs, hardware and the MCP
transport are left out.

- **Annotation reducer** (`src/sigrok_logicanalyzer_mcp/formatters.py`):
  - the tokenizer `_parse_annotations`;
  - the three stateful folds that group decoder annotations into I2C
    transactions, SPI transfers and UART byte runs;
  - the numbered listing with its "more" note;
  - the `_TRANSACTION_FORMATTERS` dispatch of `format_decoded_summary`.

  Each fold is a `method` with the source's loop and its flush closures
  written out. Each fold is proved equal to a fold function, and the fold
  function is proved equal to an independent block view:
  - I2C splits the annotations at `Start`/`Stop`, then at `Start repeat`;
  - SPI splits at the transfer annotations;
  - UART uses maximal same-direction runs.
- **Generic formatters:**
  - the line cap `format_decoded_protocol` and the sample window
    `format_raw_samples`, modelled once for the three packages;
  - the labelled summarizer of `sigrok_logicanalyzer_mcp` and
    `sigrok_logic_analyzer_mcp`, which is the same code in both;
  - the fixed-width row summarizer of `sigrok_mcp`, which updates its count
    arrays in place.
- **Native conversions** (`src/sigrok_logic_analyzer_mcp/sigrok_native.py`):
  - channel and trigger spec parsing;
  - LSB-first bit unpacking;
  - lower-case hex rendering;
  - little-endian packing into an array;
  - `export_data_from_array` with its channel filter and CSV form.
- **`sigrok-cli` text work:**
  - the `--scan` and `--list-supported` parsers;
  - the capture and decode argument builders;
  - the summary annotation-filter table.
- **Capture registries:** the two `CaptureStore` classes, with their id
  counter and their insertion-ordered dict of captures.
- **Server decisions** (`src/sigrok_logicanalyzer_mcp/server.py`):
  - `_parse_key_value_pairs`;
  - the choice in `_run_decode` between the filter and the cache;
  - the 5000-sample cap of `get_raw_samples`.

Python's behaviour is modelled explicitly in module `PyText`:
- `str.strip` and `isspace` use Python's whitespace set;
- `splitlines` uses Python's line-break set;
- `partition`, `find`, `split`, `join`, `int()` and `int(x, 16)`;
- negative slice bounds.

Python exceptions become `Err` values of a `Result` (`ValueError`,
`IndexError`, `TypeError`, `DeviceNotFoundError`, `CaptureNotFoundError`).

Two behaviours of the source are modelled as written:
- **UART summary fails.** `format_decoded_summary` passes
  `max_transactions=` to every table entry, and `format_uart_transactions`
  has no such parameter. A UART summary is therefore `Err(TypeError)`.
- **A bare `MISO data` token fails.** A `MISO data` token without `": "`
  ends the SPI formatter with `Err(IndexError)`.

## Model

| member | source | states |
|---|---|---|
| Annotations.TokenOf | src/sigrok_logicanalyzer_mcp/formatters.py:161-168 | a line yields at most one token; the token is the non-empty text after the first `": "` of the stripped line, and there is none exactly when that text is empty |
| Annotations.ParseAnnotations | src/sigrok_logicanalyzer_mcp/formatters.py:158-169 | the loop returns the tokens of the stripped text's lines, in line order |
| Annotations.TokenizeLines | src/sigrok_logicanalyzer_mcp/formatters.py:161-168 | the loop over given lines returns exactly their tokens in order |
| Annotations.TokensOfAppend | src/sigrok_logicanalyzer_mcp/formatters.py:161-168 | tokenizing works line by line: the tokens of two blocks of lines are the tokens of each, concatenated |
| Annotations.TokensFromLines | src/sigrok_logicanalyzer_mcp/formatters.py:158-169 | there are no more tokens than lines, and every token is non-empty and is the remainder after `": "` of some line |
| Annotations.TokenOfDecoderLine | src/sigrok_logicanalyzer_mcp/formatters.py:165-168 | a stripped line `prefix: value`, where the prefix has no `": "`, yields exactly `value`, even when `value` itself holds `": "` |
| Annotations.Listing | src/sigrok_logicanalyzer_mcp/formatters.py:245-251 | header, blank line, then the first min(total, max) items numbered `#001`, `#002`, …; the last line is the `(total − max more …)` note exactly when total > max |
| Annotations.BuildListing | src/sigrok_logicanalyzer_mcp/formatters.py:245-251 | the listing loop builds exactly `Listing` |
| Annotations.ListingText | src/sigrok_logicanalyzer_mcp/formatters.py:253 | the joined listing begins with its header |
| Annotations.MoreNoteStart | src/sigrok_logicanalyzer_mcp/formatters.py:251 | the "more" note starts with a line break, so it can never be mistaken for a numbered line |
| Annotations.PiecesPartition | src/sigrok_logicanalyzer_mcp/formatters.py:211-219 | splitting at boundary annotations gives runs that hold no boundary, one more run than there are boundaries |
| Runs.PiecesFlatten | src/sigrok_logicanalyzer_mcp/formatters.py:211-233 | the runs, one after the other, are exactly the annotations that are no boundary, in their order |
| Annotations.PiecesExtend | src/sigrok_logicanalyzer_mcp/formatters.py:220-233 | an annotation that is no boundary extends the last run and leaves the others unchanged |
| Annotations.PiecesCut | src/sigrok_logicanalyzer_mcp/formatters.py:212-219 | a boundary closes the last run and opens an empty one |
| I2C.Events | src/sigrok_logicanalyzer_mcp/formatters.py:211-234 | one meaning per annotation, in order, as the `if`/`elif` chain classifies it |
| I2C.Fold | src/sigrok_logicanalyzer_mcp/formatters.py:211-234 | the device counter stays a well-formed `Counter` throughout the fold |
| I2C.FormatI2CTransactions | src/sigrok_logicanalyzer_mcp/formatters.py:172-253 | the formatter's text equals the report of the tokens of the stripped text's lines |
| I2C.GroupTransactions | src/sigrok_logicanalyzer_mcp/formatters.py:186-238 | the loop plus the final flushes leave exactly the transactions and the address counter of the fold |
| I2C.HandleAnnotation | src/sigrok_logicanalyzer_mcp/formatters.py:193-234 | one loop iteration, with `_flush_segment`/`_flush_transaction` written out, is one step of the fold |
| I2C.FoldTracksPieces | src/sigrok_logicanalyzer_mcp/formatters.py:211-234 | after any prefix of the annotations, the finished transactions are those of the closed `Start`/`Stop` runs, and the open segment holds the last run's direction, address and data |
| I2C.TracksStep | src/sigrok_logicanalyzer_mcp/formatters.py:211-234 | one more annotation keeps the fold in step with the runs |
| I2C.SegmentFlush | src/sigrok_logicanalyzer_mcp/formatters.py:193-203 | `_flush_segment` emits the open segment exactly when it has an address, then resets direction, address and data |
| I2C.SegmentOther | src/sigrok_logicanalyzer_mcp/formatters.py:220-233 | direction, address and data annotations change only the open segment |
| I2C.TransactionClose | src/sigrok_logicanalyzer_mcp/formatters.py:212-219 | `Start` and `Stop` flush the segment and then the transaction, which is kept only if some segment was emitted |
| I2C.TransactionOther | src/sigrok_logicanalyzer_mcp/formatters.py:215-216 | `Start repeat` closes only the segment, so the segments around it form one transaction |
| I2C.FlushesClose | src/sigrok_logicanalyzer_mcp/formatters.py:236-238 | the final flushes emit the unterminated transaction, and emit it once |
| I2C.FoldIsBlocks | src/sigrok_logicanalyzer_mcp/formatters.py:211-238 | the fold with its final flushes produces exactly the block view: split at `Start`/`Stop`, split each part at `Start repeat`, one segment per part with an address |
| I2C.FoldDevices | src/sigrok_logicanalyzer_mcp/formatters.py:224-229 | the address counter counts exactly the `Address write:`/`Address read:` values |
| I2C.StepDevices | src/sigrok_logicanalyzer_mcp/formatters.py:224-229 | only an address annotation increments the counter, and only at its own address |
| I2C.DeviceList | src/sigrok_logicanalyzer_mcp/formatters.py:240-243 | the device list holds each named address once, ordered by descending count with ties in first-seen order, and each count is that address's number of occurrences |
| I2C.HeaderStart | src/sigrok_logicanalyzer_mcp/formatters.py:245 | the header starts with `I`, so a report is never the empty-input diagnostic |
| I2C.ReportShape | src/sigrok_logicanalyzer_mcp/formatters.py:182-245 | `No I2C data decoded.` exactly for no tokens; otherwise the header counts the block transactions and names the counted devices |
| SPI.Events | src/sigrok_logicanalyzer_mcp/formatters.py:286-296 | one meaning per annotation, in order, as the `if`/`elif` chain classifies it |
| SPI.FormatSPITransactions | src/sigrok_logicanalyzer_mcp/formatters.py:256-309 | the formatter's outcome equals the report of the tokens of the stripped text's lines |
| SPI.GroupTransfers | src/sigrok_logicanalyzer_mcp/formatters.py:286-298 | `Err(IndexError)` exactly when some token is a `MISO data` without `": "`; otherwise the transfers of the fold with its final flush |
| SPI.HandleAnnotation | src/sigrok_logicanalyzer_mcp/formatters.py:286-296 | one iteration fails exactly on a malformed `MISO data`, and otherwise is one step of the fold |
| SPI.FoldTracksPieces | src/sigrok_logicanalyzer_mcp/formatters.py:286-296 | after any prefix, the finished transfers are those of the closed runs, and the open MOSI/MISO bytes are the last run's |
| SPI.BoundaryStep | src/sigrok_logicanalyzer_mcp/formatters.py:288-289 | a transfer annotation flushes, and the fold tracks the runs after it |
| SPI.OtherStep | src/sigrok_logicanalyzer_mcp/formatters.py:290-296 | a data annotation extends the open transfer |
| SPI.FlushCloses | src/sigrok_logicanalyzer_mcp/formatters.py:274-284 | `_flush` emits the open transfer exactly when it carried a byte |
| SPI.FoldIsBlocks | src/sigrok_logicanalyzer_mcp/formatters.py:286-298 | the fold with its final flush produces exactly the block view: split at transfer annotations, one `MOSI>[…] MISO<[…]` line per block that holds a byte |
| SPI.ReportFails | src/sigrok_logicanalyzer_mcp/formatters.py:294-295 | the formatter fails exactly when some token is `MISO data` without `": "` |
| SPI.ReportShape | src/sigrok_logicanalyzer_mcp/formatters.py:264-301 | `No SPI data decoded.` exactly for no tokens; otherwise a successful report starts with the header counting the block transfers |
| SPI.HeaderStart | src/sigrok_logicanalyzer_mcp/formatters.py:301 | the header starts with `S`, so a report is never the diagnostic |
| SPI.HexPairIsMosi | src/sigrok_logicanalyzer_mcp/formatters.py:290-293 | a bare pair of hex digits is a MOSI byte, upper-cased |
| UART.Spread | src/sigrok_logicanalyzer_mcp/formatters.py:343-348 | a run stands for one byte per value, each carrying the run's direction |
| UART.ExpandRuns | src/sigrok_logicanalyzer_mcp/formatters.py:343-351 | grouping loses, adds and reorders nothing: spreading the runs out again gives back the bytes |
| UART.RunsMaximal | src/sigrok_logicanalyzer_mcp/formatters.py:343-348 | no run is empty, neighbouring runs differ in direction, and the last run has the last byte's direction |
| UART.TotalOfRuns | src/sigrok_logicanalyzer_mcp/formatters.py:353 | the header's byte count is the number of data annotations |
| UART.TotalIsExpandLength | src/sigrok_logicanalyzer_mcp/formatters.py:353 | the summed run lengths are the number of bytes the runs stand for |
| UART.GroupSegments | src/sigrok_logicanalyzer_mcp/formatters.py:326-351 | the grouping loop and its final append give exactly the maximal same-direction runs of the `TX data`/`RX data` bytes |
| UART.HandleAnnotation | src/sigrok_logicanalyzer_mcp/formatters.py:330-348 | one iteration keeps the closed runs plus the open one equal to the runs of the bytes seen so far |
| UART.RunsStep | src/sigrok_logicanalyzer_mcp/formatters.py:343-348 | a byte of a new direction closes the open run, and a byte of the same direction extends it |
| UART.CutFrom | src/sigrok_logicanalyzer_mcp/formatters.py:356-360 | the search for the cut stays within the runs |
| UART.CutIsFirst | src/sigrok_logicanalyzer_mcp/formatters.py:356-360 | the listing stops before the first run at whose start at least `max_bytes` bytes were already shown |
| UART.UartLines | src/sigrok_logicanalyzer_mcp/formatters.py:354-376 | header, blank line, one line per run before the cut, and the `truncated at N bytes` note exactly when the cut falls before the end |
| UART.Truncation | src/sigrok_logicanalyzer_mcp/formatters.py:356-360 | the note is the last line exactly when some run starts after `max_bytes` bytes have been shown |
| UART.TotalBytes | src/sigrok_logicanalyzer_mcp/formatters.py:353 | the sum loop returns the total run length |
| UART.RenderSegments | src/sigrok_logicanalyzer_mcp/formatters.py:354-376 | the printing loop builds exactly `UartLines` |
| UART.ShowRun | src/sigrok_logicanalyzer_mcp/formatters.py:361-376 | printing one run appends its line and adds its length to the byte count |
| UART.ShownStep | src/sigrok_logicanalyzer_mcp/formatters.py:373-376 | one more run shown adds its line at the end |
| UART.Ascii | src/sigrok_logicanalyzer_mcp/formatters.py:364-371 | the ASCII column has one character per byte when every value parses as hex, and is empty as soon as one does not |
| UART.AsciiAt | src/sigrok_logicanalyzer_mcp/formatters.py:366-369 | when every value parses, character `i` of the column is byte `i` itself if it lies in 0x20–0x7E, and `.` otherwise |
| UART.SegmentLineColumn | src/sigrok_logicanalyzer_mcp/formatters.py:364-375 | for a non-empty run, the column is non-empty exactly when every value parses; the line then ends with the quoted column, and otherwise is just the direction marker and the hex values |
| UART.AsciiOfHexDump | src/sigrok_logicanalyzer_mcp/formatters.py:366-369 | the ASCII column of a printable text's upper-case hex dump is the text again |
| UART.ParseHexByte | src/sigrok_logicanalyzer_mcp/formatters.py:367 | `int(b, 16)` reads a byte's two hex digits back as the byte |
| UART.FormatUARTTransactions | src/sigrok_logicanalyzer_mcp/formatters.py:312-378 | the formatter's text equals the report of the tokens of the stripped text's lines |
| UART.ReportShape | src/sigrok_logicanalyzer_mcp/formatters.py:321-354 | `No UART data decoded.` exactly for no tokens; otherwise the header counts the bytes and the runs |
| UART.HeaderStart | src/sigrok_logicanalyzer_mcp/formatters.py:354 | the header starts with `U`, so a report is never the diagnostic |
| UART.SegmentLineStart | src/sigrok_logicanalyzer_mcp/formatters.py:361-375 | a run's line starts with its direction marker, never with a line break |
| UART.NoteStart | src/sigrok_logicanalyzer_mcp/formatters.py:359 | the truncation note starts with a line break |
| Dispatch.CallFormatter | src/sigrok_logicanalyzer_mcp/formatters.py:397 | calling a table entry with `max_transactions=` fails with `TypeError` exactly for the UART formatter |
| Dispatch.DecodedSummary | src/sigrok_logicanalyzer_mcp/formatters.py:389-398 | `TypeError` exactly for `uart`; a protocol without an entry gets the line cap with `max_lines = max_transactions` |
| Dispatch.FormatDecodedSummary | src/sigrok_logicanalyzer_mcp/formatters.py:389-398 | the lookup and the call produce `DecodedSummary` |
| Dispatch.TableKeys | src/sigrok_logicanalyzer_mcp/formatters.py:382-386 | the table lists exactly `i2c`, `spi` and `uart` |
| Dispatch.SummaryOutcomes | src/sigrok_logicanalyzer_mcp/formatters.py:395-398 | I2C never fails; SPI fails exactly on a malformed `MISO data` token; any other protocol gives the no-data message exactly for empty text |
| Dispatch.SpiOutcome | src/sigrok_logicanalyzer_mcp/formatters.py:384 | the SPI entry fails exactly when the SPI formatter does |
| Dispatch.FallbackOutcome | src/sigrok_logicanalyzer_mcp/formatters.py:398 | the fallback gives the no-data message exactly for empty text |
| Tally.Increment | src/sigrok_logicanalyzer_mcp/formatters.py:226 | `c[k] += 1`: the key's count goes up by one, or it enters at the end with 1; every other key is unchanged |
| Tally.CounterOfCounts | src/sigrok_logicanalyzer_mcp/formatters.py:187-229 | counting values gives each value's number of occurrences, and lists the keys in first-seen order |
| Tally.CounterCounts | src/sigrok_logicanalyzer_mcp/formatters.py:226-229 | every counted value maps to its number of occurrences |
| Tally.CounterDomain | src/sigrok_logicanalyzer_mcp/formatters.py:226-229 | the counter's keys are exactly the counted values |
| Tally.CounterOrder | src/sigrok_logicanalyzer_mcp/formatters.py:226-229 | the keys are listed in the order of their first occurrence |
| Tally.MostCommon | src/sigrok_logicanalyzer_mcp/formatters.py:242 | `most_common()` is a permutation of the keys |
| Tally.MostCommonRanked | src/sigrok_logicanalyzer_mcp/formatters.py:242 | `most_common()` lists each key once, highest count first, with equal counts in insertion order |
| Tally.InsertByCount | src/sigrok_logicanalyzer_mcp/formatters.py:242 | insertion adds exactly the one key |
| Tally.SortByCount | src/sigrok_logicanalyzer_mcp/formatters.py:242 | the stable sort by count is a permutation |
| Tally.InsertRanked | src/sigrok_logicanalyzer_mcp/formatters.py:242 | inserting a later key keeps a ranked list ranked |
| GenericFormatters.Cap | src/sigrok_logic_analyzer_mcp/formatters.py:11-31 | no data exactly for no lines; all lines when they fit; otherwise exactly the first `max_lines`, with total and hidden = total − max |
| GenericFormatters.CappedReport | src/sigrok_logic_analyzer_mcp/formatters.py:20-31 | the no-data message exactly for no lines; otherwise the text starts with the `Decoded N annotations` header |
| GenericFormatters.RenderedStart | src/sigrok_logic_analyzer_mcp/formatters.py:24-31 | a rendering with lines starts with its header and is not the no-data message |
| GenericFormatters.CappedReportFits | src/sigrok_logic_analyzer_mcp/formatters.py:23-24 | lines that fit are all shown, after the header and a blank line, with no note |
| GenericFormatters.CappedReportNote | src/sigrok_logic_analyzer_mcp/formatters.py:26-31 | cut lines end the report with the note naming exactly total − max hidden lines |
| GenericFormatters.FormatDecodedProtocol | src/sigrok_logicanalyzer_mcp/formatters.py:14-34 | the cap over the stripped text's lines, interior blank lines included |
| GenericFormatters.CapHeaderStart | src/sigrok_mcp/formatters.py:24-31 | a capped header starts with `D`, so it is never the no-data message |
| GenericFormatters.SampleWindow | src/sigrok_logic_analyzer_mcp/formatters.py:44-57 | no samples exactly for no lines; start = max(0, min(start_sample, total − 1)) stays in bounds for any start; end = min(start + size, total); the shown lines are `lines[start:end]` |
| GenericFormatters.FormatRawSamples | src/sigrok_logicanalyzer_mcp/formatters.py:37-63 | the no-sample message exactly for no lines; otherwise the text starts with `Samples start-(end−1) of total` |
| GenericFormatters.WindowText | src/sigrok_mcp/formatters.py:34-60 | the rendered window is the no-sample message exactly for no lines, and otherwise starts with its span |
| ChannelStats.Edges | src/sigrok_logic_analyzer_mcp/formatters.py:117-120 | a non-empty string has fewer edges than samples, and one sample has none |
| ChannelStats.EdgesAppend | src/sigrok_logic_analyzer_mcp/formatters.py:113-120 | the edges of a concatenation are those of each part, plus one where the parts meet with different samples |
| ChannelStats.NoEdgesConstant | src/sigrok_logic_analyzer_mcp/formatters.py:136-143 | no edges exactly when every sample equals the first |
| ChannelStats.CountUniform | src/sigrok_logic_analyzer_mcp/formatters.py:115 | a uniform string counts all or none of a character |
| ChannelStats.BitsNeverStatic | src/sigrok_logic_analyzer_mcp/formatters.py:136-143 | a non-empty run of `0`s and `1`s without edges is always high or always low, never `static` |
| LabelledSummary.ParseLine | src/sigrok_logicanalyzer_mcp/formatters.py:92-102 | a used line gives a non-empty string of `0`s and `1`s |
| LabelledSummary.RemoveSpaces | src/sigrok_logicanalyzer_mcp/formatters.py:98-100 | data of `0`, `1` and space, with the spaces removed, is all `0`/`1` |
| LabelledSummary.ChannelsOf | src/sigrok_logicanalyzer_mcp/formatters.py:115-124 | one channel per distinct label, in first-seen order |
| LabelledSummary.SummarizeCaptureData | src/sigrok_logicanalyzer_mcp/formatters.py:66-151 | the method produces the summary of the text |
| LabelledSummary.GroupLines | src/sigrok_logicanalyzer_mcp/formatters.py:90-106 | `channel_bits` maps each label to its bit groups in order, and `channel_order` lists the labels in first-seen order |
| LabelledSummary.AddLine | src/sigrok_logicanalyzer_mcp/formatters.py:91-106 | one iteration adds a used line's bits under its label and skips any other line |
| LabelledSummary.AddRecord | src/sigrok_logicanalyzer_mcp/formatters.py:103-106 | a new label joins the order, and the bits are appended under the label |
| LabelledSummary.ChannelRows | src/sigrok_logicanalyzer_mcp/formatters.py:115-124 | the channel loop gives exactly the channels of the labels |
| LabelledSummary.RowOf | src/sigrok_logicanalyzer_mcp/formatters.py:116-124 | iteration `k` adds the row of the `k`-th label |
| LabelledSummary.ChannelRow | src/sigrok_logicanalyzer_mcp/formatters.py:116-124 | a row counts the `1`s and the edges of the concatenated bits |
| LabelledSummary.CountEdges | src/sigrok_logicanalyzer_mcp/formatters.py:120-123 | the edge loop counts the adjacent mismatches |
| LabelledSummary.RecordSnoc | src/sigrok_logicanalyzer_mcp/formatters.py:103-106 | one more record adds its label only when new, and adds its bits only to its own label |
| LabelledSummary.NoPiecesOutsideLabels | src/sigrok_logicanalyzer_mcp/formatters.py:103-106 | a name that is not a label has no bits |
| LabelledSummary.GroupedStep | src/sigrok_logicanalyzer_mcp/formatters.py:103-106 | the dict update keeps the dict and the order in step with the records |
| LabelledSummary.EmptyGroups | src/sigrok_logicanalyzer_mcp/formatters.py:108-109 | the dict is empty exactly when no line was used, so the diagnostic comes exactly then |
| LabelledSummary.LabelsNonEmpty | src/sigrok_logicanalyzer_mcp/formatters.py:126 | with a used line there is a first channel for the header's sample count |
| LabelledSummary.LabelsDistinct | src/sigrok_logicanalyzer_mcp/formatters.py:103-105 | the channels are the labels of the used lines, each listed once |
| LabelledSummary.JoinSnoc | src/sigrok_logicanalyzer_mcp/formatters.py:116 | one more group extends a channel's bits at the end |
| LabelledSummary.ChannelBitsAppend | src/sigrok_logicanalyzer_mcp/formatters.py:116-123 | edges are counted across group boundaries, too |
| LabelledSummary.ChannelBitsAreBits | src/sigrok_logicanalyzer_mcp/formatters.py:98-102 | a channel's concatenated bits are non-empty `0`s and `1`s |
| LabelledSummary.RecordsAreBits | src/sigrok_logicanalyzer_mcp/formatters.py:98-102 | every used line holds non-empty `0`/`1` text |
| LabelledSummary.NeverStatic | src/sigrok_logicanalyzer_mcp/formatters.py:139-146 | no channel of a labelled summary is ever `static`: that branch cannot be reached |
| FixedWidthSummary.Accepted | src/sigrok_mcp/formatters.py:89-92 | the counted rows all have the first row's width |
| FixedWidthSummary.Column | src/sigrok_mcp/formatters.py:93-94 | a column has one sample per counted row |
| FixedWidthSummary.Summarize | src/sigrok_mcp/formatters.py:70-118 | no samples exactly for no lines; unparsable exactly when the first line has no non-space character; the total counts every line; one column per channel index |
| FixedWidthSummary.SummarizeCaptureData | src/sigrok_mcp/formatters.py:63-120 | the method produces the summary of the text |
| FixedWidthSummary.CountRows | src/sigrok_mcp/formatters.py:89-99 | the row loop counts exactly the accepted rows in `high_counts`, `edge_counts` and `prev_bits` |
| FixedWidthSummary.AddRow | src/sigrok_mcp/formatters.py:93-99 | the inner loop adds one accepted row to every channel |
| FixedWidthSummary.AddSample | src/sigrok_mcp/formatters.py:94-99 | one channel counts its sample and leaves the other channels unchanged |
| FixedWidthSummary.Columns | src/sigrok_mcp/formatters.py:108-118 | one row per channel index; the activity compares the high count with the total line count |
| FixedWidthSummary.ColumnStep | src/sigrok_mcp/formatters.py:94-99 | a `1` adds to the high count, and a change from the previous accepted row adds an edge |
| FixedWidthSummary.ColumnSnoc | src/sigrok_mcp/formatters.py:93-94 | an accepted row adds its sample to the end of every column |
| FixedWidthSummary.SkippedRow | src/sigrok_mcp/formatters.py:91-92 | a row of another width changes nothing, so the previous-bit memory carries over it |
| FixedWidthSummary.RectangularSnoc | src/sigrok_mcp/formatters.py:91 | an accepted row keeps the rows rectangular |
| FixedWidthSummary.AcceptedStep | src/sigrok_mcp/formatters.py:89-92 | one more line adds itself to the accepted rows exactly when it has the width |
| NativeSpec.Span | src/sigrok_logic_analyzer_mcp/sigrok_native.py:93 | `range(a, b + 1)` holds exactly `a..b` |
| NativeSpec.ParseChannelSpec | src/sigrok_logic_analyzer_mcp/sigrok_native.py:86-96 | the loop returns the union of the parts, or the first part's `ValueError` |
| NativeSpec.AddPart | src/sigrok_logic_analyzer_mcp/sigrok_native.py:90-95 | one part adds its channels, or fails |
| NativeSpec.UnionErrorSticks | src/sigrok_logic_analyzer_mcp/sigrok_native.py:89-95 | once a part fails, the whole spec fails with that error |
| NativeSpec.UnionMembers | src/sigrok_logic_analyzer_mcp/sigrok_native.py:89-96 | the union succeeds exactly when every part does, and then holds exactly the parts' channels |
| NativeSpec.PartsParse | src/sigrok_logic_analyzer_mcp/sigrok_native.py:89-96 | the spec parses exactly when every comma part does |
| NativeSpec.PartsMembers | src/sigrok_logic_analyzer_mcp/sigrok_native.py:89-96 | a parsed spec selects exactly the channels some part names |
| NativeSpec.RangePart | src/sigrok_logic_analyzer_mcp/sigrok_native.py:91-93 | `a-b` selects every channel from `a` to `b` |
| NativeSpec.ParseTriggers | src/sigrok_logic_analyzer_mcp/sigrok_native.py:108-119 | the loop returns the trigger map of the pairs, or the first `ValueError` |
| NativeSpec.PairStep | src/sigrok_logic_analyzer_mcp/sigrok_native.py:111-118 | pair `i` extends the map of the earlier pairs, and a failure ends the parse |
| NativeSpec.AddPair | src/sigrok_logic_analyzer_mcp/sigrok_native.py:112-118 | a pair without `=` is skipped, an unknown match letter is dropped, and a bad channel raises `ValueError` |
| NativeSpec.TriggerMapStep | src/sigrok_logic_analyzer_mcp/sigrok_native.py:111-118 | the map after `i + 1` pairs is pair `i` applied to the map after `i` |
| NativeSpec.TriggerErrorSticks | src/sigrok_logic_analyzer_mcp/sigrok_native.py:115 | a failure ends the parse with that error |
| NativeSpec.TriggerFails | src/sigrok_logic_analyzer_mcp/sigrok_native.py:113-115 | the parse fails exactly when some pair with `=` has a channel that is not an integer |
| NativeSpec.SetChannelsPresent | src/sigrok_logic_analyzer_mcp/sigrok_native.py:116-118 | every channel a pair sets is in the map |
| NativeSpec.LastPairWins | src/sigrok_logic_analyzer_mcp/sigrok_native.py:99-118 | each mapped channel holds the match name of the last pair that set it |
| NativeConvert.BitsFrom | src/sigrok_logic_analyzer_mcp/sigrok_native.py:137-138 | `n` bits, least significant first |
| NativeConvert.RowBits | src/sigrok_logic_analyzer_mcp/sigrok_native.py:135-138 | eight bits per byte |
| NativeConvert.BitLines | src/sigrok_logic_analyzer_mcp/sigrok_native.py:132-142 | one line per sample |
| NativeConvert.DataToBits | src/sigrok_logic_analyzer_mcp/sigrok_native.py:122-142 | the loop builds exactly the bit lines |
| NativeConvert.UnpackRow | src/sigrok_logic_analyzer_mcp/sigrok_native.py:135-138 | the two inner loops give the row's bits, LSB first, byte by byte |
| NativeConvert.BitsFromAt | src/sigrok_logic_analyzer_mcp/sigrok_native.py:138 | bit `k` is `(x >> k) & 1` |
| NativeConvert.RowBitsAt | src/sigrok_logic_analyzer_mcp/sigrok_native.py:133-138 | channel `p` of a row is bit `p % 8` of byte `p / 8` |
| NativeConvert.BitsLineShape | src/sigrok_logic_analyzer_mcp/sigrok_native.py:133-141 | a line has min(8·len(row), num_channels) characters, and character `8j + k` is bit `k` of byte `j` |
| NativeConvert.LowBits | src/sigrok_logic_analyzer_mcp/sigrok_native.py:137-138 | the low `n` bits and what lies above them make up the number |
| NativeConvert.ByteBitsValue | src/sigrok_logic_analyzer_mcp/sigrok_native.py:136-138 | reading a byte's eight bits back gives the byte |
| NativeConvert.BitsAreLittleEndian | src/sigrok_logic_analyzer_mcp/sigrok_native.py:150-159 | the bits line, read as a number, is the packed sample, so bit N is channel N in both |
| NativeConvert.LittleEndianBound | src/sigrok_logic_analyzer_mcp/sigrok_native.py:157-158 | a packed row fits in its bytes |
| NativeConvert.LittleEndianSnoc | src/sigrok_logic_analyzer_mcp/sigrok_native.py:158 | the byte at index `k` weighs `2 ** (8 k)` |
| NativeConvert.OrShift | src/sigrok_logic_analyzer_mcp/sigrok_native.py:158 | or-ing a value shifted above every bit of `x` adds it |
| NativeConvert.PackStep | src/sigrok_logic_analyzer_mcp/sigrok_native.py:158 | one more byte or-ed in at its place extends the little-endian value |
| NativeConvert.PackedInts | src/sigrok_logic_analyzer_mcp/sigrok_native.py:150-159 | a fresh array with one entry per sample, each Σ byte_i·256^i |
| NativeConvert.PackColumn | src/sigrok_logic_analyzer_mcp/sigrok_native.py:157-158 | one pass or-s byte `k` of every sample into place |
| NativeConvert.PackByte | src/sigrok_logic_analyzer_mcp/sigrok_native.py:158 | one sample's entry gets its next byte, and the other entries are unchanged |
| NativeConvert.PackedFits | src/sigrok_logic_analyzer_mcp/sigrok_native.py:156 | a sample of at most four bytes fits in a `uint32`, so the source's `uint32` array does not wrap |
| NativeConvert.HexByte | src/sigrok_logic_analyzer_mcp/sigrok_native.py:147 | two characters per byte |
| NativeConvert.HexLines | src/sigrok_logic_analyzer_mcp/sigrok_native.py:145-147 | one line per sample |
| NativeConvert.HexRowAt | src/sigrok_logic_analyzer_mcp/sigrok_native.py:147 | byte `j` is written as two lower-case digits at characters `2j` and `2j + 1` |
| NativeConvert.HexRowRoundTrip | src/sigrok_logic_analyzer_mcp/sigrok_native.py:147 | the hex text of a row reads back as the row, two digits per byte |
| NativeExport.Keep | src/sigrok_logic_analyzer_mcp/sigrok_native.py:373 | filtering never lengthens a line |
| NativeExport.KeepPrefix | src/sigrok_logic_analyzer_mcp/sigrok_native.py:373 | filtering a prefix of a line gives a prefix of the filtered line, so the kept characters keep their order |
| NativeExport.KeepAt | src/sigrok_logic_analyzer_mcp/sigrok_native.py:373 | every position in the filter keeps its character, placed right after the characters kept from the earlier positions |
| NativeExport.KeepOrigin | src/sigrok_logic_analyzer_mcp/sigrok_native.py:373 | every kept character is the character at a position in the filter, the one with exactly as many kept positions before it |
| NativeExport.KeepCount | src/sigrok_logic_analyzer_mcp/sigrok_native.py:373 | the filtered line has one character per position of the line that is in the filter |
| NativeExport.Singles | src/sigrok_logic_analyzer_mcp/sigrok_native.py:386 | `list(line)` gives one one-character string per character |
| NativeExport.ExportLines | src/sigrok_logic_analyzer_mcp/sigrok_native.py:363-388 | one line per sample |
| NativeExport.ExportDataFromArray | src/sigrok_logic_analyzer_mcp/sigrok_native.py:343-390 | the method produces the export of the matrix |
| NativeExport.FilterLines | src/sigrok_logic_analyzer_mcp/sigrok_native.py:370-375 | the filter loop keeps each line's filtered characters |
| NativeExport.CsvLines | src/sigrok_logic_analyzer_mcp/sigrok_native.py:381-388 | the CSV loop joins each line's (filtered) characters with commas |
| NativeExport.KeepAll | src/sigrok_logic_analyzer_mcp/sigrok_native.py:373 | a filter holding every position keeps the whole line |
| NativeExport.KeepNone | src/sigrok_logic_analyzer_mcp/sigrok_native.py:373 | a filter holding no position keeps nothing |
| NativeExport.CsvLength | src/sigrok_logic_analyzer_mcp/sigrok_native.py:387 | a CSV line has one comma between consecutive values |
| NativeExport.CsvRemove | src/sigrok_logic_analyzer_mcp/sigrok_native.py:387 | removing the commas of a CSV line of comma-free values gives the values back |
| NativeExport.CsvSnoc | src/sigrok_logic_analyzer_mcp/sigrok_native.py:387 | a CSV line of two or more values is the line of all but the last, a comma and the last |
| NativeExport.LinesLackNewline | src/sigrok_logic_analyzer_mcp/sigrok_native.py:363-388 | no exported line holds a newline |
| NativeExport.ExportEmpty | src/sigrok_logic_analyzer_mcp/sigrok_native.py:360-361 | the export is empty exactly when the matrix has no element |
| NativeExport.ExportSplits | src/sigrok_logic_analyzer_mcp/sigrok_native.py:390 | a non-empty export ends in a newline and splits at its newlines into exactly one line per sample |
| NativeExport.HexIgnoresFilter | src/sigrok_logic_analyzer_mcp/sigrok_native.py:363-364 | the `hex` format ignores the channel filter |
| NativeExport.CsvMatchesBits | src/sigrok_logic_analyzer_mcp/sigrok_native.py:378-388 | a CSV line without its commas is the (filtered) bits line of the same sample |
| NativeExport.FullFilter | src/sigrok_logic_analyzer_mcp/sigrok_native.py:368-375 | a filter holding every channel position exports what no filter does |
| SummaryFilters.Classes | src/sigrok_logicanalyzer_mcp/sigrok_cli.py:49 | a filter text begins with `decoder=` |
| SummaryFilters.GetSummaryAnnotationFilter | src/sigrok_logicanalyzer_mcp/sigrok_cli.py:171-173 | every entry the table returns selects annotations of the decoder it is looked up for |
| SummaryFilters.ExampleFilters | src/sigrok_logicanalyzer_mcp/sigrok_cli.py:48-60 | the entries tried on example captures each select their own decoder |
| SummaryFilters.BusFilters | src/sigrok_logicanalyzer_mcp/sigrok_cli.py:63-85 | the bus entries each select their own decoder |
| SummaryFilters.MemoryFilters | src/sigrok_logicanalyzer_mcp/sigrok_cli.py:86-91 | the memory entries each select their own decoder |
| SummaryFilters.SensorFilters | src/sigrok_logicanalyzer_mcp/sigrok_cli.py:92-103 | the sensor entries each select their own decoder |
| SummaryFilters.DisplayFilters | src/sigrok_logicanalyzer_mcp/sigrok_cli.py:104-110 | the display entries each select their own decoder |
| SummaryFilters.RadioFilters | src/sigrok_logicanalyzer_mcp/sigrok_cli.py:111-125 | the radio entries each select their own decoder |
| SummaryFilters.DebugFilters | src/sigrok_logicanalyzer_mcp/sigrok_cli.py:126-134 | the debug entries each select their own decoder |
| SummaryFilters.UsbFilters | src/sigrok_logicanalyzer_mcp/sigrok_cli.py:135-138 | the USB entries each select their own decoder |
| SummaryFilters.UtilityFilters | src/sigrok_logicanalyzer_mcp/sigrok_cli.py:139-149 | the utility entries each select their own decoder |
| SummaryFilters.MiscFilters | src/sigrok_logicanalyzer_mcp/sigrok_cli.py:150-167 | the remaining entries each select their own decoder |
| SummaryFilters.TransactionDecoderFilters | src/sigrok_logicanalyzer_mcp/sigrok_cli.py:49-51 | `i2c`, `spi` and `uart` get their byte and framing classes |
| SigrokCli.DeviceOf | src/sigrok_logicanalyzer_mcp/sigrok_cli.py:244-246 | a line names a device only as a stripped, non-blank line that is not the `The following` header |
| SigrokCli.Devices | src/sigrok_logicanalyzer_mcp/sigrok_cli.py:243-252 | at most one device per line |
| SigrokCli.ScanDevices | src/sigrok_logicanalyzer_mcp/sigrok_cli.py:239-260 | the loop and the empty check produce the scan's outcome |
| SigrokCli.DevicesOfResults | src/sigrok_logicanalyzer_mcp/sigrok_cli.py:243-252 | every device carries the driver and one line's description, and there are none exactly when no line names one |
| SigrokCli.ScanOutcome | src/sigrok_logic_analyzer_mcp/sigrok_cli.py:113-128 | `DeviceNotFoundError` naming the driver exactly when no line names a device; otherwise every device carries the driver |
| SigrokCli.WordEnd | src/sigrok_logicanalyzer_mcp/sigrok_cli.py:393 | the first word ends at the first whitespace |
| SigrokCli.ListDecoders | src/sigrok_logicanalyzer_mcp/sigrok_cli.py:380-399 | the loop with its `in_decoders` flag produces the decoders of the section |
| SigrokCli.ReadStep | src/sigrok_logic_analyzer_mcp/sigrok_cli.py:245-259 | line `i` ends, adds to or enters the reading exactly as the rest of the section dictates |
| SigrokCli.ReadLine | src/sigrok_logicanalyzer_mcp/sigrok_cli.py:385-397 | one line's effect: stop, emit or enter, as its class says |
| SigrokCli.DecodersStep | src/sigrok_logicanalyzer_mcp/sigrok_cli.py:383-397 | reading from line `i` is that line's effect followed by reading from line `i + 1` |
| SigrokCli.DecoderOfShape | src/sigrok_logicanalyzer_mcp/sigrok_cli.py:393-397 | the id is the first word of the stripped line, and the description is the rest without leading whitespace |
| SigrokCli.DecoderIds | src/sigrok_logicanalyzer_mcp/sigrok_cli.py:391-397 | every listed decoder has a one-word id |
| SigrokCli.DecodersAreWords | src/sigrok_logicanalyzer_mcp/sigrok_cli.py:391-397 | every decoder read has a one-word id |
| SigrokCli.ClassifiedEntries | src/sigrok_logicanalyzer_mcp/sigrok_cli.py:391-393 | every entry line carries a one-word id |
| SigrokCli.BeforeSection | src/sigrok_logicanalyzer_mcp/sigrok_cli.py:385-391 | lines before the first section header yield nothing |
| SigrokCli.NoHeaderNoDecoders | src/sigrok_logic_analyzer_mcp/sigrok_cli.py:247-253 | without a section header nothing is read |
| SigrokCli.HeaderLines | src/sigrok_logicanalyzer_mcp/sigrok_cli.py:385-390 | a line is a section header exactly when its lower-case form holds `protocol decoders`; inside the section, a `Supported ` line ends the reading |
| SigrokCli.BuildCaptureArgs | src/sigrok_logicanalyzer_mcp/sigrok_cli.py:295-314 | the list grown step by step equals the capture arguments |
| SigrokCli.AddSampleArgs | src/sigrok_logicanalyzer_mcp/sigrok_cli.py:300-306 | `--samples n`, else `--time ms`, else `--samples 1024` is appended |
| SigrokCli.AddTailArgs | src/sigrok_logicanalyzer_mcp/sigrok_cli.py:308-314 | triggers, `--wait-trigger` and the output file are appended |
| SigrokCli.CaptureArgsEnds | src/sigrok_logic_analyzer_mcp/sigrok_cli.py:161-180 | a capture always begins `--driver d --config samplerate=r` and ends with `--output-file f` |
| SigrokCli.CaptureArgsFlags | src/sigrok_logic_analyzer_mcp/sigrok_cli.py:166-178 | `--time` appears exactly when there is a duration and no sample count, `--samples` exactly otherwise, and `--wait-trigger` exactly when the flag is set |
| SigrokCli.HeadHasNoFlag | src/sigrok_logicanalyzer_mcp/sigrok_cli.py:295-298 | the head holds no sample, time or wait flag |
| SigrokCli.SampleFlags | src/sigrok_logicanalyzer_mcp/sigrok_cli.py:300-306 | the sample step adds exactly one of `--samples`/`--time` |
| SigrokCli.TailFlags | src/sigrok_logicanalyzer_mcp/sigrok_cli.py:308-314 | the tail holds `--wait-trigger` exactly when the flag is set, and no sample flag |
| SigrokCli.SampleValueNotFlag | src/sigrok_logicanalyzer_mcp/sigrok_cli.py:301-306 | a rendered count is never one of the flags |
| SigrokCli.Assignments | src/sigrok_logicanalyzer_mcp/sigrok_cli.py:356-358 | one `k=v` per dict entry |
| SigrokCli.DecodeArgs | src/sigrok_logicanalyzer_mcp/sigrok_cli.py:362-365 | six arguments with a filter, four without |
| SigrokCli.BuildDecodeArgs | src/sigrok_logicanalyzer_mcp/sigrok_cli.py:352-365 | the list grown step by step equals the decode arguments |
| SigrokCli.DecoderSpecSplits | src/sigrok_logic_analyzer_mcp/sigrok_cli.py:214-222 | for colon-free names and values, the spec splits at `:` into the decoder, then the mapping's `sig=ch`, then the options' `k=v` |
| SigrokCli.SpecJoin | src/sigrok_logicanalyzer_mcp/sigrok_cli.py:353-360 | the spec is the decoder and the assignments joined by colons |
| SigrokCli.ItemsLack | src/sigrok_logicanalyzer_mcp/sigrok_cli.py:356-358 | an assignment holds no character (other than `=`) that no name or value holds |
| SigrokCli.DecodeArgsShape | src/sigrok_logicanalyzer_mcp/sigrok_cli.py:362-365 | `-i file -P spec`, followed by `-A filter` exactly when the filter is non-empty |
| SigrokCli.BareDecoderSpec | src/sigrok_logicanalyzer_mcp/sigrok_cli.py:353-360 | the spec is the bare decoder exactly when there is no mapping and no option entry |
| CaptureStore.CaptureId | src/sigrok_logic_analyzer_mcp/capture_store.py:65 | `cap_` followed by at least three digits, which read back as the counter |
| CaptureStore.CaptureIdWidth | src/sigrok_logic_analyzer_mcp/capture_store.py:65 | the padding is a width: below 1000 the id has exactly three digits, and from 1000 on it is `cap_` and the plain number |
| CaptureStore.CaptureIdInjective | src/sigrok_logic_analyzer_mcp/capture_store.py:65 | different counter values never give the same id |
| CaptureStore.FirstCaptureId | src/sigrok_logic_analyzer_mcp/capture_store.py:64-65 | derived from the padding contracts: the first id is `cap_001` |
| CaptureStore.PathJoin | src/sigrok_logic_analyzer_mcp/capture_store.py:66 | the path begins with the base directory and ends with the file name |
| CaptureStore.NotFoundMessageShape | src/sigrok_logic_analyzer_mcp/capture_store.py:91-95 | the message names the missing id and lists every present id, or `(none)` |
| CaptureStore.NotFoundListsIds | src/sigrok_mcp/capture_store.py:67-71 | every present id appears in the message |
| CaptureStore.NextIdFresh | src/sigrok_logic_analyzer_mcp/capture_store.py:64-65 | the next counter value names an id that is not registered and was never handed out |
| CaptureStore.ListingOf | src/sigrok_logic_analyzer_mcp/capture_store.py:101-113 | an entry holds the capture's id, path and description, its file's size, and `len(data)` or 0 |
| CaptureStore.ListingsOf | src/sigrok_logic_analyzer_mcp/capture_store.py:98-114 | one entry per id, in order |
| CaptureStore.ListEntries | src/sigrok_logic_analyzer_mcp/capture_store.py:100-114 | the loop builds exactly the listing |
| CaptureStore.WithData | src/sigrok_logic_analyzer_mcp/capture_store.py:84-87 | storing data sets data, channel count and sample rate and keeps the rest |
| CaptureStore.Store.constructor | src/sigrok_logic_analyzer_mcp/capture_store.py:42-52 | an empty registry with the counter at 0 |
| CaptureStore.Store.NewCapture | src/sigrok_logic_analyzer_mcp/capture_store.py:58-74 | the counter goes up by one; the id names it and was never handed out before; the path is `base/<id>.sr`; the entry is added at the end and nothing else changes |
| CaptureStore.Store.Get | src/sigrok_logic_analyzer_mcp/capture_store.py:89-96 | success exactly for a registered id, returning its entry; otherwise `CaptureNotFoundError` with the listing message |
| CaptureStore.Store.StoreData | src/sigrok_logic_analyzer_mcp/capture_store.py:76-87 | an absent id raises with the listing message and changes nothing; a present entry gets only data, channel count and sample rate |
| CaptureStore.Store.Listings | src/sigrok_logic_analyzer_mcp/capture_store.py:98-114 | one entry per capture, in insertion order, with `num_samples` the number of rows or 0 |
| CaptureStore.Store.ListCaptures | src/sigrok_logic_analyzer_mcp/capture_store.py:98-114 | the method returns the listing |
| CaptureStore.Store.Cleanup | src/sigrok_logic_analyzer_mcp/capture_store.py:116-120 | the registry is emptied and the counter kept, so no id is ever handed out twice |
| CaptureStore.FileListingOf | src/sigrok_mcp/capture_store.py:77-87 | an entry holds the capture's id, path and description, and its file's size |
| CaptureStore.FileListingsOf | src/sigrok_mcp/capture_store.py:74-88 | one entry per id, in order |
| CaptureStore.ListFileEntries | src/sigrok_mcp/capture_store.py:76-88 | the loop builds exactly the listing |
| CaptureStore.FileStore.constructor | src/sigrok_mcp/capture_store.py:31-41 | an empty registry with the counter at 0 |
| CaptureStore.FileStore.NewCapture | src/sigrok_mcp/capture_store.py:47-63 | as in the other store: a fresh id from the incremented counter, the path `base/<id>.sr` and the entry added at the end |
| CaptureStore.FileStore.Get | src/sigrok_mcp/capture_store.py:65-72 | success exactly for a registered id; otherwise `CaptureNotFoundError` with the listing message |
| CaptureStore.FileStore.Listings | src/sigrok_mcp/capture_store.py:74-88 | one entry per capture, in insertion order |
| CaptureStore.FileStore.ListCaptures | src/sigrok_mcp/capture_store.py:74-88 | the method returns the listing |
| CaptureStore.FileStore.Cleanup | src/sigrok_mcp/capture_store.py:90-94 | the registry is emptied and the counter kept |
| Dicts.Get | src/sigrok_logicanalyzer_mcp/server.py:184 | a lookup finds nothing exactly for a key that is not listed |
| Dicts.Put | src/sigrok_logicanalyzer_mcp/server.py:184 | an assignment adds an entry only for a new key |
| Dicts.PutGet | src/sigrok_logicanalyzer_mcp/server.py:184 | the key gets the value |
| Dicts.PutOther | src/sigrok_logicanalyzer_mcp/server.py:184 | every other key keeps its value |
| Dicts.PutKeys | src/sigrok_logicanalyzer_mcp/server.py:184 | the keys stay in place, and a new one joins at the end |
| Dicts.PutDistinct | src/sigrok_logicanalyzer_mcp/server.py:184 | no key is ever listed twice |
| ServerDecode.PairOf | src/sigrok_logicanalyzer_mcp/server.py:181-184 | a piece gives a pair exactly when its stripped form holds `=` |
| ServerDecode.PairResults | src/sigrok_logicanalyzer_mcp/server.py:180-184 | one result per comma piece |
| ServerDecode.ParseKeyValuePairs | src/sigrok_logicanalyzer_mcp/server.py:177-185 | the loop fills exactly the dict of the pairs assigned in order |
| ServerDecode.SomesStep | src/sigrok_logicanalyzer_mcp/server.py:180-184 | piece `i` adds its pair, if it has one, to the dict built so far |
| ServerDecode.PutAllSnoc | src/sigrok_logicanalyzer_mcp/server.py:184 | assigning one more pair is one more assignment |
| ServerDecode.FindChar | src/sigrok_logicanalyzer_mcp/server.py:183 | the search finds the first `=` |
| ServerDecode.SplitFirstEquals | src/sigrok_logicanalyzer_mcp/server.py:183 | `split("=", 1)` splits at the first `=` |
| ServerDecode.PairOfFirstEquals | src/sigrok_logicanalyzer_mcp/server.py:181-184 | the key is the stripped text before the first `=` and the value the stripped text after it |
| ServerDecode.ValueMayHoldEquals | src/sigrok_logicanalyzer_mcp/server.py:183-184 | a value may itself hold `=` |
| ServerDecode.PutAllDistinct | src/sigrok_logicanalyzer_mcp/server.py:184 | the parsed dict lists each key once |
| ServerDecode.PutAllLast | src/sigrok_logicanalyzer_mcp/server.py:184 | the last pair's key gets its value |
| ServerDecode.PutAllOther | src/sigrok_logicanalyzer_mcp/server.py:184 | any other key is looked up as before the last pair |
| ServerDecode.UnnamedKey | src/sigrok_logicanalyzer_mcp/server.py:180-184 | a key no pair names is not in the dict |
| ServerDecode.LastPairWins | src/sigrok_logicanalyzer_mcp/server.py:184 | the last pair naming a key decides its value, so a later duplicate overwrites an earlier one |
| ServerDecode.NamedKeyPresent | src/sigrok_logicanalyzer_mcp/server.py:184 | a key some pair names is present |
| ServerDecode.KeyValueLookup | src/sigrok_logicanalyzer_mcp/server.py:177-185 | keys are distinct; a key is missing exactly when no pair names it, and otherwise holds the value of the last pair naming it |
| ServerDecode.EffectiveFilter | src/sigrok_logicanalyzer_mcp/server.py:206-211 | a caller's filter always wins; outside summary mode the caller's (possibly empty) filter is used; in summary mode without one, the table's entry |
| ServerDecode.DecodeReply | src/sigrok_logicanalyzer_mcp/server.py:227-235 | a decoder error becomes `Decoder error: …`; raw mode gives the capped text; summary mode fails exactly for `uart` |
| ServerDecode.CacheReuse | src/sigrok_logicanalyzer_mcp/server.py:213-217 | cached output is used exactly outside summary mode, when the cache holds text and there is neither a filter nor options; summary mode always runs the decoder |
| ServerDecode.SummaryRunsWithTableFilter | src/sigrok_logicanalyzer_mcp/server.py:206-226 | in summary mode without a filter of the caller's, `-A` carries the table's entry exactly when that entry is non-empty; `i2c` and `uart` get their own classes |
| ServerDecode.CallerFilterWins | src/sigrok_logicanalyzer_mcp/server.py:209-226 | a caller's filter is passed with `-A` in either mode, and the cache is then never used |
| ServerDecode.SampleCap | src/sigrok_logicanalyzer_mcp/server.py:430 | `min(num_samples, 5000)`: at most 5000 and at most the request, and equal to one of them |
| ServerDecode.CappedWindow | src/sigrok_logicanalyzer_mcp/server.py:430-441 | a non-negative request shows at most 5000 samples, and no more than were requested |
| ServerDecode.NegativeCountPassesCap | src/sigrok_logicanalyzer_mcp/server.py:430 | as written, a request of −1 samples over 6000 lines shows 5999 samples |
| ServerDecode.BoundedSampleCap | src/sigrok_logicanalyzer_mcp/server.py:430 | the count clamped into 0..5000, equal to the source's cap for every non-negative request |
| ServerDecode.BoundedWindow | src/sigrok_logicanalyzer_mcp/server.py:430-441 | with the clamped count no window shows more than 5000 samples, and every non-negative request gets the source's window |
| PyText.Strip | src/sigrok_logicanalyzer_mcp/formatters.py:162 | the stripped text neither starts nor ends with whitespace |
| PyText.SplitLines | src/sigrok_logicanalyzer_mcp/formatters.py:161 | no line holds a line break, and there are no lines exactly for empty text |
| PyText.Find | src/sigrok_logicanalyzer_mcp/formatters.py:166 | the first position at which the separator occurs |
| PyText.JoinSplitOn | src/sigrok_logic_analyzer_mcp/sigrok_native.py:89 | splitting at a character and joining with it again gives back the text |
| PyText.SplitOnJoin | src/sigrok_logic_analyzer_mcp/sigrok_native.py:390 | joining separator-free parts and splitting again gives back the parts |
| PyText.PartInJoin | src/sigrok_logic_analyzer_mcp/capture_store.py:92 | every part occurs in the join, at its offset |
| PyText.ParseIntOfIntToString | src/sigrok_logicanalyzer_mcp/sigrok_cli.py:301 | `int(str(i)) == i` |
| Padding.ZeroPad | src/sigrok_logic_analyzer_mcp/capture_store.py:65 | padding to a width gives exactly max(width, len) digits with the same value |
| Padding.ZeroPadShape | src/sigrok_logic_analyzer_mcp/capture_store.py:65 | the padding is zeros in front of the unchanged digits |
| Padding.NatToStringWidth | src/sigrok_logic_analyzer_mcp/capture_store.py:65 | `str(n)` has at most three digits exactly when `n < 1000` |
| Padding.Pad3 | src/sigrok_logic_analyzer_mcp/capture_store.py:65 | `{n:03d}` reads back as `n`; it has exactly three digits below 1000 and is plain `str(n)` from 1000 on |
| PyText.PySlice | src/sigrok_logic_analyzer_mcp/formatters.py:53 | Python's slice, which agrees with Dafny's slice for in-range bounds |
| PyText.PyPrefix | src/sigrok_logicanalyzer_mcp/formatters.py:247 | `s[:k]` is always a prefix of length min(k, len) for non-negative `k` |

## Left out

- Running `sigrok-cli` (`_run`, `_find_sigrok_cli`, subprocesses, timeouts, `run_in_executor`) is not modelled. Its output is a parameter of the parsers, and the argument lists are the builders' results.
- The capture timeout arithmetic is not modelled, because it is floating point.
- libsigrok device access, the pysigrok decoding path (`_NumpyInput`, `_AnnotationCollector`, `decode_protocol_from_data`), `_parse_sample_rate` and `_coerce_option_value` are not modelled: they are foreign libraries or floating point.
- `pct_high` and its `:.1f` rendering are not modelled, because they are floating point. The summarizers return the counts, the activity word and the headline instead of the full table text.
- `LabelledSummary.SummarizeCaptureData` and `FixedWidthSummary.SummarizeCaptureData` stop at the per-channel statistics. They do not build the padded table rows.
- The MCP tool functions and the FastMCP lifespan in both `server.py` files are not modelled. The inline key=value parse of `src/sigrok_mcp/server.py` is the same algorithm as `_parse_key_value_pairs`.
- `cache_decode` and `get_cached_decode` belong to a capture store that is not part of this model. The cached text enters `ServerDecode.PlanDecode` as a parameter.
- `mkdtemp`, `makedirs`, `os.path.exists`, `getsize`, `rmtree` and `time.time()` are not modelled. The base directory, file sizes (a function) and creation times are inputs; `Cleanup` models only the registry.
- `CaptureStore.Store.Get` returns the entry as a value. The source returns the shared `CaptureInfo` object that `store_data` then mutates; that aliasing is not modelled. `StoreData` updates the registry's map instead.
- Python dicts are a map plus a sequence of keys in insertion order, or an association list (`Dicts`).
- `PyText.Upper` and `PyText.Lower` change ASCII letters only. Python also maps other Unicode letters.
- `PyText.ParseInt` and `PyText.ParseHex` accept ASCII digits only. Python's `int()` also accepts underscores between digits and other Unicode digits.
- NativeConvert.PackedInts: requires at most four bytes per sample. The source packs into a `uint32` array, which silently drops the higher bytes of wider samples; the model does not cover those samples.
- The CAN, 1-Wire, MDIO, USB, DCF77, AM230x, AVR-ISP, SPI-Flash and SD-card formatters that the integration tests import are not part of this model. The dispatch table lists only `i2c`, `spi` and `uart`.
- The `_flush_segment`, `_flush_transaction` and `_flush` closures are written out inline in the fold methods; their `nonlocal` rebinding is the method's local state.
- `numpy` arrays are modelled as sequences of byte rows of equal length.

## Findings

| source | as written | input that shows it | evidently intended | confidence | as-written member | corrected member |
|---|---|---|---|---|---|---|
| src/sigrok_logicanalyzer_mcp/server.py:430 | `num_samples = min(num_samples, 5000)` lets a negative request through; `lines[start:end]` then reads a negative end from the back | `num_samples = -1`, `start_sample = 0`, 6000 sample lines: 5999 samples are shown | at most 5000 samples are shown, as the tool's `(max 5000)` documents | not executed | ServerDecode.NegativeCountPassesCap | ServerDecode.BoundedWindow |
