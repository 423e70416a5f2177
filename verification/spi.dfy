/**
 * `format_spi_transactions`: one pass over the SPI annotations that collects
 * MOSI and MISO bytes and closes a transfer at every transfer annotation
 * (a chip-select boundary) and at the end.
 */
module SPI {
  import opened Wrappers
  import opened PyText
  import opened Annotations

  const NoSPIData := "No SPI data decoded."

  /** What one annotation means to the grouping, in the order the formatter
      tests for it. A `MISO data` annotation without `": "` makes the
      formatter index past the end of its split. */
  datatype Event =
    | Boundary
    | Mosi(byte: string)
    | Miso(byte: string)
    | Malformed
    | Ignored

  /** `re.match(r'^[0-9A-Fa-f]{2}$', ann)`: two hex digits, where `$` also
      accepts one line feed after them. */
  predicate IsHexPair(ann: string) {
    (|ann| == 2 || (|ann| == 3 && ann[2] == '\n')) && IsHexDigit(ann[0]) && IsHexDigit(ann[1])
  }

  function Classify(ann: string): Event {
    if StartsWith(ann, "MOSI transfer") || StartsWith(ann, "MISO transfer") then Boundary
    else if StartsWith(ann, "MOSI data") || IsHexPair(ann) then
      Mosi(Upper(if Contains(ann, ": ") then After(ann, ": ") else ann))
    else if StartsWith(ann, "MISO data") then
      if Contains(ann, ": ") then Miso(Upper(After(ann, ": "))) else Malformed
    else Ignored
  }

  /** `MOSI>[A0 00] MISO<[FF 3C]`, either side left out when it has no bytes. */
  function TransferText(mosi: seq<string>, miso: seq<string>): string {
    var parts := (if mosi != [] then ["MOSI>[" + Join(mosi, " ") + "]"] else [])
                 + (if miso != [] then ["MISO<[" + Join(miso, " ") + "]"] else []);
    Join(parts, " ")
  }

  // ---------------------------------------------------------------------
  // The fold, one annotation at a time
  // ---------------------------------------------------------------------

  /** The formatter's local state: finished transfers and the open transfer's
      MOSI and MISO bytes. */
  datatype State = State(transfers: seq<string>, mosi: seq<string>, miso: seq<string>)

  const Init := State([], [], [])

  /** `_flush`: a transfer is kept only when it carried a byte. */
  function Flush(s: State): State {
    if s.mosi != [] || s.miso != [] then State(s.transfers + [TransferText(s.mosi, s.miso)], [], [])
    else s
  }

  /** The annotations' meanings, in order. */
  function Events(anns: seq<string>): (es: seq<Event>)
    ensures |es| == |anns| && forall i :: 0 <= i < |anns| ==> es[i] == Classify(anns[i])
  {
    seq(|anns|, i requires 0 <= i < |anns| => Classify(anns[i]))
  }

  /** One annotation's effect; the formatter never gets past a malformed one,
      so that case leaves the state alone. */
  function Step(s: State, e: Event): State {
    match e
    case Boundary => Flush(s)
    case Mosi(b) => s.(mosi := s.mosi + [b])
    case Miso(b) => s.(miso := s.miso + [b])
    case Malformed => s
    case Ignored => s
  }

  function Fold(es: seq<Event>): State {
    if es == [] then Init else Step(Fold(es[..|es| - 1]), es[|es| - 1])
  }

  /** The state after the final flush that follows the loop. */
  function Finish(es: seq<Event>): State {
    Flush(Fold(es))
  }

  function Header(total: nat): string {
    "SPI: " + NatToString(total) + " transfers"
  }

  /** The formatter's outcome for a list of annotations. */
  function Report(anns: seq<string>, maxTransactions: int): Result<string, PyError> {
    if anns == [] then Ok(NoSPIData)
    else
      var es := Events(anns);
      if Malformed in es then Err(IndexError)
      else
        var s := Finish(es);
        Ok(Join(Listing(Header(|s.transfers|), s.transfers, maxTransactions, "transfers"), "\n"))
  }

  /** `format_spi_transactions`. */
  method FormatSPITransactions(raw: string, maxTransactions: int) returns (out: Result<string, PyError>)
    ensures out == Report(TokensOf(Lines(raw)), maxTransactions)
  {
    var anns := ParseAnnotations(raw);
    if anns == [] {
      return Ok(NoSPIData);
    }
    var grouped := GroupTransfers(anns);
    if grouped.Err? {
      return Err(grouped.error);
    }
    var transfers := grouped.value;
    var lines := BuildListing(Header(|transfers|), transfers, maxTransactions, "transfers");
    out := Ok(Join(lines, "\n"));
  }

  /** The formatter's pass over the annotations and the flush after it. */
  method GroupTransfers(anns: seq<string>) returns (r: Result<seq<string>, PyError>)
    ensures r == if Malformed in Events(anns) then Err(IndexError) else Ok(Finish(Events(anns)).transfers)
  {
    var transfers: seq<string> := [];
    var mosi: seq<string> := [];
    var miso: seq<string> := [];
    ghost var es := Events(anns);
    for i := 0 to |anns|
      invariant Malformed !in es[..i]
      invariant State(transfers, mosi, miso) == Fold(es[..i])
    {
      TakeSnoc(es, i);
      var ok;
      transfers, mosi, miso, ok := HandleAnnotation(anns[i], transfers, mosi, miso);
      if !ok {
        assert es[i] in es;
        return Err(IndexError);
      }
    }
    assert es[..|anns|] == es;
    // the final `_flush()`
    if mosi != [] || miso != [] {
      transfers := transfers + [TransferText(mosi, miso)];
    }
    r := Ok(transfers);
  }

  /** The body of the formatter's loop, with the `_flush` closure written out
      in place: it changes the formatter's state as `Step` says, or reports
      that the annotation made it fail. */
  method HandleAnnotation(ann: string, transfers0: seq<string>, mosi0: seq<string>, miso0: seq<string>)
    returns (transfers: seq<string>, mosi: seq<string>, miso: seq<string>, ok: bool)
    ensures ok <==> Classify(ann) != Malformed
    ensures ok ==> State(transfers, mosi, miso) == Step(State(transfers0, mosi0, miso0), Classify(ann))
  {
    transfers, mosi, miso, ok := transfers0, mosi0, miso0, true;
    if StartsWith(ann, "MOSI transfer") || StartsWith(ann, "MISO transfer") {
      if mosi != [] || miso != [] {
        transfers := transfers + [TransferText(mosi, miso)];
        mosi, miso := [], [];
      }
    } else if StartsWith(ann, "MOSI data") || IsHexPair(ann) {
      var val := if Contains(ann, ": ") then After(ann, ": ") else ann;
      mosi := mosi + [Upper(val)];
    } else if StartsWith(ann, "MISO data") {
      if !Contains(ann, ": ") {
        return transfers, mosi, miso, false;
      }
      miso := miso + [Upper(After(ann, ": "))];
    }
  }

  // ---------------------------------------------------------------------
  // The same transfers, block by block
  // ---------------------------------------------------------------------

  predicate IsBoundary(e: Event) {
    e.Boundary?
  }

  /** The MOSI bytes of a block, in order. */
  function MosiOf(p: seq<Event>): seq<string> {
    if p == [] then []
    else MosiOf(p[..|p| - 1]) + match p[|p| - 1] case Mosi(b) => [b] case _ => []
  }

  /** The MISO bytes of a block, in order. */
  function MisoOf(p: seq<Event>): seq<string> {
    if p == [] then []
    else MisoOf(p[..|p| - 1]) + match p[|p| - 1] case Miso(b) => [b] case _ => []
  }

  /** A block is printed exactly when it carried a byte. */
  function EmitTransfer(p: seq<Event>): seq<string> {
    if MosiOf(p) != [] || MisoOf(p) != [] then [TransferText(MosiOf(p), MisoOf(p))] else []
  }

  function TransfersOf(ps: seq<seq<Event>>): seq<string> {
    if ps == [] then [] else TransfersOf(ps[..|ps| - 1]) + EmitTransfer(ps[|ps| - 1])
  }

  /** The transfers: split at the transfer annotations and print every block
      with a byte in it. */
  function BlockTransfers(es: seq<Event>): seq<string> {
    TransfersOf(Pieces(es, IsBoundary))
  }

  /** The fold state holds the finished blocks' transfers and the open
      block's bytes. */
  predicate Tracks(s: State, es: seq<Event>) {
    var ps := Pieces(es, IsBoundary);
    && s.transfers == TransfersOf(ps[..|ps| - 1])
    && s.mosi == MosiOf(Last(ps)) && s.miso == MisoOf(Last(ps))
  }

  lemma {:induction false} FoldTracksPieces(es: seq<Event>)
    ensures Tracks(Fold(es), es)
  {
    if es != [] {
      var init := es[..|es| - 1];
      var e := es[|es| - 1];
      FoldTracksPieces(init);
      assert Fold(es) == Step(Fold(init), e);
      assert es == init + [e];
      if IsBoundary(e) {
        BoundaryStep(Fold(init), init, e);
      } else {
        OtherStep(Fold(init), init, e);
      }
    }
  }

  /** Flushing finishes every block. */
  lemma FlushCloses(s: State, es: seq<Event>)
    requires Tracks(s, es)
    ensures Flush(s).transfers == TransfersOf(Pieces(es, IsBoundary))
  {
    var ps := Pieces(es, IsBoundary);
    assert EmitTransfer(Last(ps)) == EmitTransfer(ps[|ps| - 1]);
  }

  lemma BoundaryStep(s: State, init: seq<Event>, e: Event)
    requires Tracks(s, init) && IsBoundary(e)
    ensures Tracks(Step(s, e), init + [e])
  {
    var es := init + [e];
    assert es[..|es| - 1] == init;
    var ps0 := Pieces(init, IsBoundary);
    var ps := Pieces(es, IsBoundary);
    assert ps == ps0 + [[]];
    assert ps[..|ps| - 1] == ps0;
    FlushCloses(s, init);
  }

  lemma OtherStep(s: State, init: seq<Event>, e: Event)
    requires Tracks(s, init) && !IsBoundary(e)
    ensures Tracks(Step(s, e), init + [e])
  {
    var es := init + [e];
    assert es[..|es| - 1] == init;
    var ps0 := Pieces(init, IsBoundary);
    var p := Last(ps0) + [e];
    var ps := Pieces(es, IsBoundary);
    assert ps == ps0[..|ps0| - 1] + [p];
    assert ps[..|ps| - 1] == ps0[..|ps0| - 1];
    assert p[..|p| - 1] == Last(ps0);
  }

  /** The fold and its final flush produce exactly the block transfers. */
  lemma FoldIsBlocks(es: seq<Event>)
    ensures Finish(es).transfers == BlockTransfers(es)
  {
    FoldTracksPieces(es);
    FlushCloses(Fold(es), es);
  }

  // ---------------------------------------------------------------------
  // The report
  // ---------------------------------------------------------------------

  /** The formatter fails exactly when some annotation is a `MISO data`
      annotation without `": "`. */
  lemma ReportFails(anns: seq<string>, maxTransactions: int)
    ensures Report(anns, maxTransactions).Err? <==> exists i :: 0 <= i < |anns| && Classify(anns[i]) == Malformed
  {
    var es := Events(anns);
    if Malformed in es {
      var i :| 0 <= i < |es| && es[i] == Malformed;
      assert Classify(anns[i]) == Malformed;
    }
    if exists i :: 0 <= i < |anns| && Classify(anns[i]) == Malformed {
      var i :| 0 <= i < |anns| && Classify(anns[i]) == Malformed;
      assert es[i] == Malformed;
    }
  }

  /**
   * No annotations give the diagnostic; otherwise a report that does not
   * fail begins with the header counting the transfers, which are the block
   * transfers.
   */
  lemma ReportShape(anns: seq<string>, maxTransactions: int)
    ensures Report(anns, maxTransactions) == Ok(NoSPIData) <==> anns == []
    ensures anns != [] && Report(anns, maxTransactions).Ok? ==>
              var s := Finish(Events(anns));
              && s.transfers == BlockTransfers(Events(anns))
              && StartsWith(Report(anns, maxTransactions).value, Header(|s.transfers|))
  {
    var es := Events(anns);
    if anns != [] && Malformed !in es {
      var s := Finish(es);
      FoldIsBlocks(es);
      var header := Header(|s.transfers|);
      var lines := Listing(header, s.transfers, maxTransactions, "transfers");
      ListingText(header, lines);
      HeaderStart(|s.transfers|);
      assert NoSPIData[0] == 'N';
    }
  }

  /** The header starts with `S`, so a report is never the diagnostic. */
  lemma HeaderStart(total: nat)
    ensures |Header(total)| > 0 && Header(total)[0] == 'S'
  {
    var rest := NatToString(total) + " transfers";
    assert Header(total) == "SPI: " + rest;
  }

  /** A bare pair of hex digits is a MOSI byte, upper-cased. */
  lemma HexPairIsMosi(ann: string)
    requires |ann| == 2 && IsHexDigit(ann[0]) && IsHexDigit(ann[1])
    ensures Classify(ann) == Mosi(Upper(ann))
  {
    assert !StartsWith(ann, "MOSI transfer") && !StartsWith(ann, "MISO transfer");
    assert !Contains(ann, ": ") by {
      forall j: nat ensures !OccursAt(ann, ": ", j) {
        if j + 2 <= |ann| {
          assert ann[j + 1] != ' ';
        }
      }
    }
  }
}
