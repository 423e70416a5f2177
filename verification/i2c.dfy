/**
 * `format_i2c_transactions`: one pass over the I2C annotations that groups
 * them into transactions (closed by `Start` and `Stop`) made of segments
 * (closed as well by `Start repeat`), each segment a direction, an address
 * and its data bytes, and that counts how often each device address occurs.
 */
module I2C {
  import opened PyText
  import opened Annotations
  import opened Tally

  const NoI2CData := "No I2C data decoded."

  /** What one annotation means to the grouping, in the order the formatter
      tests for it; acknowledgements and anything else are ignored. */
  datatype Event =
    | Start
    | StartRepeat
    | Stop
    | Write
    | Read
    | Address(addr: string)
    | Datum(byte: string)
    | Ignored

  function Classify(ann: string): Event {
    if ann == "Start" then Start
    else if ann == "Start repeat" then StartRepeat
    else if ann == "Stop" then Stop
    else if ann == "Write" then Write
    else if ann == "Read" then Read
    else if StartsWith(ann, "Address write: ") || StartsWith(ann, "Address read: ") then Address(After(ann, ": "))
    else if StartsWith(ann, "Data write: ") || StartsWith(ann, "Data read: ") then Datum(After(ann, ": "))
    else Ignored
  }

  /** `W 0x59`, followed by `: [0B 00]` when the segment carried data. */
  function SegmentText(dir: string, addr: string, data: seq<string>): string {
    var dataStr := if data != [] then Join(data, " ") else "";
    dir + " 0x" + addr + (if dataStr != "" then ": [" + dataStr + "]" else "")
  }

  // ---------------------------------------------------------------------
  // The fold, one annotation at a time
  // ---------------------------------------------------------------------

  /** The formatter's local state: finished transactions, the segments of the
      open transaction, the open segment's direction, address and data, and the
      address counter. */
  datatype State = State(
    transactions: seq<string>,
    segments: seq<string>,
    dir: string,
    addr: string,
    data: seq<string>,
    devices: Counter)

  const Init := State([], [], "", "", [], Tally.Empty)

  /** `_flush_segment`: a segment is kept only when it has an address; the
      open segment is emptied either way. */
  function FlushSegment(s: State): State {
    var segments := if s.addr != "" then s.segments + [SegmentText(s.dir, s.addr, s.data)] else s.segments;
    s.(segments := segments, dir := "", addr := "", data := [])
  }

  /** `_flush_transaction`: a transaction is kept only when it has segments. */
  function FlushTransaction(s: State): State {
    var transactions := if s.segments != [] then s.transactions + [Join(s.segments, " | ")] else s.transactions;
    s.(transactions := transactions, segments := [])
  }

  /** The annotations' meanings, in order. */
  function Events(anns: seq<string>): (es: seq<Event>)
    ensures |es| == |anns| && forall i :: 0 <= i < |anns| ==> es[i] == Classify(anns[i])
  {
    seq(|anns|, i requires 0 <= i < |anns| => Classify(anns[i]))
  }

  function Step(s: State, e: Event): State
    requires Valid(s.devices)
  {
    match e
    case Start | Stop => FlushTransaction(FlushSegment(s))
    case StartRepeat => FlushSegment(s)
    case Write => s.(dir := "W")
    case Read => s.(dir := "R")
    case Address(a) => s.(addr := a, devices := Increment(s.devices, a))
    case Datum(d) => s.(data := s.data + [d])
    case Ignored => s
  }

  function Fold(es: seq<Event>): (s: State)
    ensures Valid(s.devices)
  {
    if es == [] then Init else Step(Fold(es[..|es| - 1]), es[|es| - 1])
  }

  /** The state after the final flushes that follow the loop. */
  function Finish(es: seq<Event>): (s: State)
    ensures Valid(s.devices)
  {
    FlushTransaction(FlushSegment(Fold(es)))
  }

  function DeviceNames(addrs: seq<string>): (r: seq<string>)
    ensures |r| == |addrs| && forall i :: 0 <= i < |addrs| ==> r[i] == "0x" + addrs[i]
  {
    seq(|addrs|, i requires 0 <= i < |addrs| => "0x" + addrs[i])
  }

  function Header(total: nat, devices: Counter): string
    requires Valid(devices)
  {
    "I2C: " + NatToString(total) + " transactions, devices: " + Join(DeviceNames(MostCommon(devices)), ", ")
  }

  /** The formatter's text for a list of annotations. */
  function Report(anns: seq<string>, maxTransactions: int): string {
    if anns == [] then NoI2CData
    else
      var s := Finish(Events(anns));
      Join(Listing(Header(|s.transactions|, s.devices), s.transactions, maxTransactions, "transactions"), "\n")
  }

  /** `format_i2c_transactions`. */
  method FormatI2CTransactions(raw: string, maxTransactions: int) returns (out: string)
    ensures out == Report(TokensOf(Lines(raw)), maxTransactions)
  {
    var anns := ParseAnnotations(raw);
    if anns == [] {
      return NoI2CData;
    }
    var transactions, addresses := GroupTransactions(anns);
    var header := Header(|transactions|, addresses);
    var lines := BuildListing(header, transactions, maxTransactions, "transactions");
    out := Join(lines, "\n");
  }

  /** The formatter's pass over the annotations and the flushes after it: it
      ends with the transactions and the address counter of `Finish`. */
  method GroupTransactions(anns: seq<string>) returns (transactions: seq<string>, addresses: Counter)
    ensures Valid(addresses)
    ensures transactions == Finish(Events(anns)).transactions && addresses == Finish(Events(anns)).devices
  {
    transactions := [];
    addresses := Tally.Empty;
    var segments: seq<string> := [];
    var dir := "";
    var addr := "";
    var data: seq<string> := [];
    ghost var es := Events(anns);
    var i := 0;
    while i < |anns|
      invariant 0 <= i <= |anns|
      invariant Valid(addresses)
      invariant State(transactions, segments, dir, addr, data, addresses) == Fold(es[..i])
    {
      assert es[..i + 1][..i] == es[..i];
      transactions, segments, dir, addr, data, addresses :=
        HandleAnnotation(anns[i], transactions, segments, dir, addr, data, addresses);
      i := i + 1;
    }
    assert es[..i] == es;
    // the final `_flush_segment()` and `_flush_transaction()`
    if addr != "" {
      segments := segments + [SegmentText(dir, addr, data)];
    }
    if segments != [] {
      transactions := transactions + [Join(segments, " | ")];
    }
  }

  /** The body of the formatter's loop, with the `_flush_segment` and
      `_flush_transaction` closures written out in place: it changes the
      formatter's state as `Step` says. */
  method HandleAnnotation(ann: string, transactions0: seq<string>, segments0: seq<string>, dir0: string,
                          addr0: string, data0: seq<string>, addresses0: Counter)
    returns (transactions: seq<string>, segments: seq<string>, dir: string, addr: string,
             data: seq<string>, addresses: Counter)
    requires Valid(addresses0)
    ensures Valid(addresses)
    ensures State(transactions, segments, dir, addr, data, addresses)
            == Step(State(transactions0, segments0, dir0, addr0, data0, addresses0), Classify(ann))
  {
    transactions, segments, dir, addr, data, addresses := transactions0, segments0, dir0, addr0, data0, addresses0;
    match Classify(ann) {
      case StartRepeat =>
        if addr != "" {
          segments := segments + [SegmentText(dir, addr, data)];
        }
        dir, addr, data := "", "", [];
      case Start | Stop =>
        if addr != "" {
          segments := segments + [SegmentText(dir, addr, data)];
        }
        dir, addr, data := "", "", [];
        if segments != [] {
          transactions := transactions + [Join(segments, " | ")];
        }
        segments := [];
      case Write =>
        dir := "W";
      case Read =>
        dir := "R";
      case Address(a) =>
        addr := a;
        addresses := Increment(addresses, a);
      case Datum(d) =>
        data := data + [d];
      case Ignored =>
    }
  }

  // ---------------------------------------------------------------------
  // The same transactions, read off the annotation list's structure
  // ---------------------------------------------------------------------

  predicate IsTransactionBoundary(e: Event) {
    e.Start? || e.Stop?
  }

  predicate IsRepeatedStart(e: Event) {
    e.StartRepeat?
  }

  /** The direction of a segment: its last `Write`/`Read`, if any. */
  function SegmentDir(q: seq<Event>): string {
    if q == [] then ""
    else match q[|q| - 1]
      case Write => "W"
      case Read => "R"
      case _ => SegmentDir(q[..|q| - 1])
  }

  /** The address of a segment: its last address annotation, if any. */
  function SegmentAddr(q: seq<Event>): string {
    if q == [] then ""
    else match q[|q| - 1]
      case Address(a) => a
      case _ => SegmentAddr(q[..|q| - 1])
  }

  /** The data of a segment: all its data annotations, in order. */
  function SegmentData(q: seq<Event>): seq<string> {
    if q == [] then []
    else SegmentData(q[..|q| - 1]) + match q[|q| - 1] case Datum(d) => [d] case _ => []
  }

  /** A segment is printed exactly when it names an address. */
  function EmitSegment(q: seq<Event>): seq<string> {
    if SegmentAddr(q) != "" then [SegmentText(SegmentDir(q), SegmentAddr(q), SegmentData(q))] else []
  }

  function SegmentsOf(qs: seq<seq<Event>>): seq<string> {
    if qs == [] then [] else SegmentsOf(qs[..|qs| - 1]) + EmitSegment(qs[|qs| - 1])
  }

  /** A transaction is printed exactly when one of its segments is. */
  function EmitTransaction(p: seq<Event>): seq<string> {
    var segs := SegmentsOf(Pieces(p, IsRepeatedStart));
    if segs != [] then [Join(segs, " | ")] else []
  }

  function TransactionsOf(ps: seq<seq<Event>>): seq<string> {
    if ps == [] then [] else TransactionsOf(ps[..|ps| - 1]) + EmitTransaction(ps[|ps| - 1])
  }

  /** The transactions: split at `Start`/`Stop`, split each part at
      `Start repeat`, and print what names an address. */
  function BlockTransactions(es: seq<Event>): seq<string> {
    TransactionsOf(Pieces(es, IsTransactionBoundary))
  }

  /** The fold state `s` is inside the last of the segments `qs`: it holds the
      finished ones and the parts of the open one. */
  predicate InSegment(s: State, qs: seq<seq<Event>>)
    requires qs != []
  {
    && s.segments == SegmentsOf(qs[..|qs| - 1])
    && s.dir == SegmentDir(Last(qs)) && s.addr == SegmentAddr(Last(qs)) && s.data == SegmentData(Last(qs))
  }

  /** The fold state `s` is inside the last of the transactions `ps`: it
      holds the finished ones and is inside the open one's segments. */
  predicate InTransaction(s: State, ps: seq<seq<Event>>)
    requires ps != []
  {
    s.transactions == TransactionsOf(ps[..|ps| - 1]) && InSegment(s, Pieces(Last(ps), IsRepeatedStart))
  }

  /** The fold state `s` holds exactly the finished transactions of `anns`,
      the finished segments of its open transaction and its open segment's parts. */
  predicate Tracks(s: State, anns: seq<Event>) {
    InTransaction(s, Pieces(anns, IsTransactionBoundary))
  }

  lemma {:induction false} FoldTracksPieces(anns: seq<Event>)
    ensures Tracks(Fold(anns), anns)
  {
    if anns != [] {
      FoldTracksPieces(anns[..|anns| - 1]);
      TracksStep(Fold(anns[..|anns| - 1]), anns);
    }
  }

  /** One more annotation keeps the fold state in step with the pieces. */
  lemma TracksStep(s: State, anns: seq<Event>)
    requires anns != [] && Valid(s.devices) && Tracks(s, anns[..|anns| - 1])
    ensures Tracks(Step(s, anns[|anns| - 1]), anns)
  {
    var ps := Pieces(anns[..|anns| - 1], IsTransactionBoundary);
    var a := anns[|anns| - 1];
    if IsTransactionBoundary(a) {
      TransactionClose(s, ps);
      assert Step(s, a) == FlushTransaction(FlushSegment(s));
    } else {
      TransactionOther(s, ps, a);
    }
  }

  /** Flushing the open segment finishes it, and the fold is then inside a
      new empty segment. */
  lemma SegmentFlush(s: State, qs: seq<seq<Event>>)
    requires qs != [] && InSegment(s, qs)
    ensures FlushSegment(s).segments == SegmentsOf(qs)
    ensures InSegment(FlushSegment(s), qs + [[]])
  {
    NewSegment(FlushSegment(s), qs);
  }

  /** A state with no open parts is inside a new empty segment. */
  lemma NewSegment(t: State, qs: seq<seq<Event>>)
    requires t.segments == SegmentsOf(qs) && t.dir == "" && t.addr == "" && t.data == []
    ensures InSegment(t, qs + [[]])
  {
    assert (qs + [[]])[..|qs|] == qs;
  }

  /** Any annotation but a boundary extends the open segment. */
  lemma SegmentOther(s: State, qs: seq<seq<Event>>, a: Event)
    requires qs != [] && Valid(s.devices) && InSegment(s, qs)
    requires !IsRepeatedStart(a) && !IsTransactionBoundary(a)
    ensures Step(s, a).transactions == s.transactions
    ensures InSegment(Step(s, a), qs[..|qs| - 1] + [Last(qs) + [a]])
  {
    var q := Last(qs) + [a];
    assert q[..|q| - 1] == Last(qs);
    var qs' := qs[..|qs| - 1] + [q];
    assert qs'[..|qs'| - 1] == qs[..|qs| - 1];
  }

  /** Flushing the open segment and then the open transaction finishes every
      transaction, and the fold is then inside a new empty one. */
  lemma TransactionClose(s: State, ps: seq<seq<Event>>)
    requires ps != [] && InTransaction(s, ps)
    ensures FlushTransaction(FlushSegment(s)).transactions == TransactionsOf(ps)
    ensures InTransaction(FlushTransaction(FlushSegment(s)), ps + [[]])
  {
    SegmentFlush(s, Pieces(Last(ps), IsRepeatedStart));
    assert EmitTransaction(Last(ps)) == EmitTransaction(ps[|ps| - 1]);
    NewTransaction(FlushTransaction(FlushSegment(s)), ps);
  }

  /** A state with nothing open is inside a new empty transaction. */
  lemma NewTransaction(t: State, ps: seq<seq<Event>>)
    requires t.transactions == TransactionsOf(ps) && t.segments == [] && t.dir == "" && t.addr == "" && t.data == []
    ensures InTransaction(t, ps + [[]])
  {
    assert (ps + [[]])[..|ps|] == ps;
  }

  /** Any annotation but a transaction boundary extends the open transaction. */
  lemma TransactionOther(s: State, ps: seq<seq<Event>>, a: Event)
    requires ps != [] && Valid(s.devices) && InTransaction(s, ps) && !IsTransactionBoundary(a)
    ensures InTransaction(Step(s, a), ps[..|ps| - 1] + [Last(ps) + [a]])
  {
    var ps' := ps[..|ps| - 1] + [Last(ps) + [a]];
    assert ps'[..|ps'| - 1] == ps[..|ps| - 1];
    var qs := Pieces(Last(ps), IsRepeatedStart);
    if IsRepeatedStart(a) {
      PiecesCut(Last(ps), a, IsRepeatedStart);
      SegmentFlush(s, qs);
      assert Step(s, a) == FlushSegment(s);
    } else {
      PiecesExtend(Last(ps), a, IsRepeatedStart);
      SegmentOther(s, qs, a);
    }
  }

  /** Flushing what is open finishes every transaction. */
  lemma FlushesClose(s: State, anns: seq<Event>)
    requires Tracks(s, anns)
    ensures FlushTransaction(FlushSegment(s)).transactions == TransactionsOf(Pieces(anns, IsTransactionBoundary))
  {
    TransactionClose(s, Pieces(anns, IsTransactionBoundary));
  }

  /** The fold and its final flushes produce exactly the block transactions. */
  lemma FoldIsBlocks(anns: seq<Event>)
    ensures Finish(anns).transactions == BlockTransactions(anns)
  {
    FoldTracksPieces(anns);
    FlushesClose(Fold(anns), anns);
  }

  // ---------------------------------------------------------------------
  // The device list
  // ---------------------------------------------------------------------

  /** The addresses the annotations name, in order. */
  function AddressesOf(es: seq<Event>): seq<string> {
    if es == [] then []
    else AddressesOf(es[..|es| - 1]) + match es[|es| - 1] case Address(a) => [a] case _ => []
  }

  /** The fold counts exactly the named addresses. */
  lemma {:induction false} FoldDevices(es: seq<Event>)
    ensures Fold(es).devices == CounterOf(AddressesOf(es))
  {
    if es != [] {
      var init := es[..|es| - 1];
      var e := es[|es| - 1];
      FoldDevices(init);
      StepDevices(Fold(init), e);
      var xs := AddressesOf(es);
      if e.Address? {
        assert xs == AddressesOf(init) + [e.addr];
        assert xs[..|xs| - 1] == AddressesOf(init);
        assert CounterOf(xs) == Increment(CounterOf(AddressesOf(init)), e.addr);
      } else {
        assert xs == AddressesOf(init);
      }
    }
  }

  lemma StepDevices(s: State, e: Event)
    requires Valid(s.devices)
    ensures Step(s, e).devices == if e.Address? then Increment(s.devices, e.addr) else s.devices
  {
  }

  /**
   * The header's device list names every address of the annotations once,
   * most frequent first and, among equally frequent ones, in the order they
   * were first seen; the counter behind it holds each address's number of
   * occurrences.
   */
  lemma DeviceList(es: seq<Event>)
    ensures var c := Finish(es).devices;
            var r := MostCommon(c);
            && (forall k :: k in r <==> k in AddressesOf(es))
            && |r| == |c.keys|
            && Ranked(c, r)
            && FirstSeenOrder(c.keys, AddressesOf(es))
            && (forall k :: k in AddressesOf(es) ==> k in c.counts && c.counts[k] == Occurrences(AddressesOf(es), k))
  {
    FoldDevices(es);
    var c := Finish(es).devices;
    assert c == CounterOf(AddressesOf(es));
    CounterOfCounts(AddressesOf(es));
    MostCommonRanked(c);
  }

  // ---------------------------------------------------------------------
  // The report
  // ---------------------------------------------------------------------

  /** The header starts with `I`, so a report is never the diagnostic. */
  lemma HeaderStart(total: nat, devices: Counter)
    requires Valid(devices)
    ensures |Header(total, devices)| > 0 && Header(total, devices)[0] == 'I'
  {
    var rest := NatToString(total) + " transactions, devices: " + Join(DeviceNames(MostCommon(devices)), ", ");
    assert Header(total, devices) == "I2C: " + rest;
  }

  /**
   * The report is the diagnostic exactly when there are no annotations;
   * otherwise it begins with the header counting the transactions and
   * naming the devices, and it holds the transactions of the block view.
   */
  lemma ReportShape(anns: seq<string>, maxTransactions: int)
    ensures Report(anns, maxTransactions) == NoI2CData <==> anns == []
    ensures anns != [] ==>
              var s := Finish(Events(anns));
              && s.transactions == BlockTransactions(Events(anns))
              && StartsWith(Report(anns, maxTransactions), Header(|s.transactions|, s.devices))
  {
    if anns != [] {
      var s := Finish(Events(anns));
      FoldIsBlocks(Events(anns));
      var header := Header(|s.transactions|, s.devices);
      var lines := Listing(header, s.transactions, maxTransactions, "transactions");
      ListingText(header, lines);
      HeaderStart(|s.transactions|, s.devices);
      assert NoI2CData[0] == 'N';
    }
  }
}
