/**
 * The capture registry of both packages: a counter that only grows, and a
 * dict from short ids (`cap_001`, `cap_002`, ...) to what is known of each
 * capture, kept in insertion order. The `sigrok_logic_analyzer_mcp` store
 * also holds the sample matrix of a capture; the `sigrok_mcp` store holds
 * only the file.
 */
module CaptureStore {
  import opened Wrappers
  import opened PyText
  import opened Padding
  import opened NativeConvert

  datatype CaptureNotFoundError = CaptureNotFoundError(message: string)

  /** `f"cap_{n:03d}"`. */
  function CaptureId(n: nat): (id: string)
    ensures |id| >= 7 && id[..4] == "cap_"
    ensures AllDigits(id[4..]) && IdNumber(id) == n
  {
    var digits := Pad3(n);
    ConcatEnds("cap_", digits);
    "cap_" + digits
  }

  /** The number an id was made from. */
  function IdNumber(id: string): nat {
    if |id| >= 4 && AllDigits(id[4..]) then DecimalValue(id[4..]) else 0
  }

  /** Different counter values never give the same id. */
  lemma CaptureIdInjective(m: nat, n: nat)
    ensures CaptureId(m) == CaptureId(n) <==> m == n
  {
  }

  /** The padding is a width, not a prefix: exactly three digits below
      1000, the plain number from 1000 on. */
  lemma CaptureIdWidth(n: nat)
    ensures n < 1000 ==> |CaptureId(n)| == 7
    ensures n >= 1000 ==> CaptureId(n) == "cap_" + NatToString(n)
  {
  }

  /** The first id: the padding of `CaptureId` puts two zeros before `1`. */
  lemma FirstCaptureId()
    ensures CaptureId(1) == "cap_001"
  {
    var id := CaptureId(1);
    CaptureIdWidth(1);
    ZeroPadShape(NatToString(1), 3);
    assert NatToString(1) == "1";
    assert id[4..][2..] == "1";
  }

  /** `os.path.join(base, name)` for a relative `name`: a `/` is put between
      them unless `base` is empty or already ends in one. */
  function PathJoin(base: string, name: string): (p: string)
    ensures StartsWith(p, base) && |p| >= |name| && p[|p| - |name|..] == name
  {
    ConcatEnds(base, name);
    ConcatEnds(base + "/", name);
    ConcatEnds(base, "/");
    if base == [] || base[|base| - 1] == '/' then base + name else base + "/" + name
  }

  /** The `.sr` file of a capture. */
  function CaptureFile(baseDir: string, id: string): string {
    PathJoin(baseDir, id + ".sr")
  }

  /** `", ".join(ids) or "(none)"`. */
  function Available(ids: seq<string>): string {
    var joined := Join(ids, ", ");
    if joined == "" then "(none)" else joined
  }

  function NotFoundPrefix(id: string): string {
    "Capture '" + id + "' not found. Available captures: "
  }

  /** The text of `CaptureNotFoundError`. */
  function NotFoundMessage(id: string, ids: seq<string>): string {
    NotFoundPrefix(id) + Available(ids)
  }

  /** The message names the missing id and lists every present one at its
      place in the joined list, or says `(none)` when that list is empty. */
  lemma NotFoundMessageShape(id: string, ids: seq<string>)
    ensures var m := NotFoundMessage(id, ids);
            && StartsWith(m, NotFoundPrefix(id))
            && (Join(ids, ", ") == "" ==> m == NotFoundPrefix(id) + "(none)")
            && (Join(ids, ", ") != "" ==>
                  forall i :: 0 <= i < |ids| ==> OccursAt(m, ids[i], |NotFoundPrefix(id)| + PartOffset(ids, ", ", i)))
  {
    ConcatEnds(NotFoundPrefix(id), Available(ids));
    IdsOccur(NotFoundPrefix(id), ids);
  }

  lemma IdsOccur(prefix: string, ids: seq<string>)
    ensures Join(ids, ", ") != "" ==>
              forall i :: 0 <= i < |ids| ==> OccursAt(prefix + Available(ids), ids[i], |prefix| + PartOffset(ids, ", ", i))
  {
    if Join(ids, ", ") != "" {
      forall i | 0 <= i < |ids|
        ensures OccursAt(prefix + Available(ids), ids[i], |prefix| + PartOffset(ids, ", ", i))
      {
        PartInJoin(ids, ", ", i);
        OccursAfter(prefix, Join(ids, ", "), ids[i], PartOffset(ids, ", ", i));
      }
    }
  }

  lemma OccursAfter(a: string, b: string, p: string, k: nat)
    requires OccursAt(b, p, k)
    ensures OccursAt(a + b, p, |a| + k)
  {
    assert (a + b)[|a| + k..|a| + k + |p|] == b[k..k + |p|];
  }

  /** Every present id is found in the message. */
  lemma NotFoundListsIds(id: string, ids: seq<string>, i: nat)
    requires i < |ids| && Join(ids, ", ") != ""
    ensures Contains(NotFoundMessage(id, ids), ids[i])
  {
    var m := NotFoundMessage(id, ids);
    NotFoundMessageShape(id, ids);
    assert OccursAt(m, ids[i], |NotFoundPrefix(id)| + PartOffset(ids, ", ", i));
  }

  /** The registry's ids in the order they were handed out, each naming a
      counter value already reached. */
  predicate Ordered(ids: seq<string>, counter: nat) {
    && (forall i, j :: 0 <= i < j < |ids| ==> IdNumber(ids[i]) < IdNumber(ids[j]))
    && (forall i :: 0 <= i < |ids| ==> 1 <= IdNumber(ids[i]) <= counter)
  }

  /** The next counter value names an id that is not registered and that no
      earlier counter value named, and appending it keeps the order. */
  lemma NextIdFresh(ids: seq<string>, counter: nat)
    requires Ordered(ids, counter)
    ensures CaptureId(counter + 1) !in ids
    ensures forall n :: 1 <= n <= counter ==> CaptureId(counter + 1) != CaptureId(n)
    ensures Ordered(ids + [CaptureId(counter + 1)], counter + 1)
  {
    var id := CaptureId(counter + 1);
    forall i | 0 <= i < |ids| ensures ids[i] != id {
      assert IdNumber(ids[i]) <= counter;
    }
    forall n | 1 <= n <= counter ensures id != CaptureId(n) {
      assert IdNumber(CaptureId(n)) == n;
    }
    var ids' := ids + [id];
    forall i, j | 0 <= i < j < |ids'| ensures IdNumber(ids'[i]) < IdNumber(ids'[j]) {
      if j < |ids| {
        assert ids'[i] == ids[i] && ids'[j] == ids[j];
      } else {
        assert ids'[i] == ids[i];
      }
    }
  }

  // ---------------------------------------------------------------------
  // The store of sigrok_logic_analyzer_mcp
  // ---------------------------------------------------------------------

  type Samples = seq<seq<byte>>

  /** `CaptureInfo`; `data` is `None` until samples are attached. */
  datatype CaptureInfo = CaptureInfo(captureId: string, filePath: string, createdAt: real, description: string,
                                     data: Option<Samples>, numChannels: int, sampleRate: int)

  /** One entry of `list_captures`. */
  datatype Listing = Listing(id: string, filePath: string, sizeBytes: nat, createdAt: real, description: string,
                             numChannels: int, numSamples: nat)

  /** `num_samples`: the number of rows, or 0 without data. */
  function SampleCount(info: CaptureInfo): nat {
    if info.data.Some? then |info.data.value| else 0
  }

  /** The listing entry of one capture; `size` is the size of a file, 0 for
      a missing one. */
  function ListingOf(info: CaptureInfo, size: string -> nat): (l: Listing)
    ensures l.id == info.captureId && l.filePath == info.filePath && l.description == info.description
    ensures l.numSamples == SampleCount(info) && l.sizeBytes == size(info.filePath)
  {
    Listing(info.captureId, info.filePath, size(info.filePath), info.createdAt, info.description,
            info.numChannels, SampleCount(info))
  }

  /** The listing of a registry: one entry per id, in order. */
  function ListingsOf(ids: seq<string>, captures: map<string, CaptureInfo>, size: string -> nat): (ls: seq<Listing>)
    requires forall id :: id in ids ==> id in captures
    ensures |ls| == |ids|
    ensures forall i :: 0 <= i < |ids| ==> ls[i] == ListingOf(captures[ids[i]], size)
  {
    seq(|ids|, i requires 0 <= i < |ids| => ListingOf(captures[ids[i]], size))
  }

  /** The loop of `list_captures`, over the registry's ids in order. */
  method ListEntries(keys: seq<string>, entries: map<string, CaptureInfo>, size: string -> nat) returns (result: seq<Listing>)
    requires forall id :: id in keys ==> id in entries
    ensures result == ListingsOf(keys, entries, size)
  {
    result := [];
    for i := 0 to |keys|
      invariant |result| == i
      invariant forall k :: 0 <= k < i ==> result[k] == ListingOf(entries[keys[k]], size)
    {
      var info := entries[keys[i]];
      result := result + [ListingOf(info, size)];
    }
  }

  /** What a successful `store_data` leaves in an entry. */
  function WithData(info: CaptureInfo, data: Samples, numChannels: int, sampleRate: int): (r: CaptureInfo)
    ensures r.captureId == info.captureId && r.filePath == info.filePath
    ensures r.createdAt == info.createdAt && r.description == info.description
    ensures r.data == Some(data) && r.numChannels == numChannels && r.sampleRate == sampleRate
  {
    info.(data := Some(data), numChannels := numChannels, sampleRate := sampleRate)
  }

  class Store {
    const baseDir: string
    var counter: nat
    /** The keys of `_captures` in insertion order. */
    var ids: seq<string>
    var captures: map<string, CaptureInfo>

    /**
     * The ids handed out are those of the counter values 1..counter; the
     * registry holds some of them, each once, in the order they were handed
     * out, and each entry records its own id and its file in the base
     * directory.
     */
    ghost predicate Valid()
      reads this
    {
      && Ordered(ids, counter)
      && (forall id :: id in captures <==> id in ids)
      && (forall id :: id in captures ==> captures[id].captureId == id && captures[id].filePath == CaptureFile(baseDir, id))
    }

    /** `CaptureStore(base_dir)`: an empty registry and a zero counter. */
    constructor(baseDir: string)
      ensures Valid()
      ensures this.baseDir == baseDir && counter == 0 && ids == [] && captures == map[]
    {
      this.baseDir := baseDir;
      counter := 0;
      ids := [];
      captures := map[];
    }


    /**
     * `new_capture`: the counter grows by one and names a new id, never
     * handed out before; its entry goes at the end of the registry with the
     * description, the creation time (`createdAt`, an input here) and no
     * data yet.
     */
    method NewCapture(description: string, createdAt: real) returns (id: string, path: string)
      requires Valid()
      modifies this
      ensures Valid()
      ensures counter == old(counter) + 1 && id == CaptureId(counter)
      ensures path == CaptureFile(baseDir, id)
      ensures forall n :: 1 <= n <= old(counter) ==> id != CaptureId(n)
      ensures ids == old(ids) + [id]
      ensures captures == old(captures)[id := CaptureInfo(id, path, createdAt, description, None, 0, 0)]
    {
      NextIdFresh(ids, counter);
      counter := counter + 1;
      id := CaptureId(counter);
      path := CaptureFile(baseDir, id);
      if id !in captures {
        ids := ids + [id];
      }
      captures := captures[id := CaptureInfo(id, path, createdAt, description, None, 0, 0)];
    }

    /** `get`: the entry of a present id, otherwise the error listing the
        present ids. */
    function Get(id: string): (r: Result<CaptureInfo, CaptureNotFoundError>)
      reads this
      requires Valid()
      ensures r.Ok? <==> id in ids
      ensures r.Ok? ==> r.value.captureId == id && r.value.filePath == CaptureFile(baseDir, id)
      ensures r.Err? ==> r.error.message == NotFoundMessage(id, ids)
    {
      if id !in captures then Err(CaptureNotFoundError(NotFoundMessage(id, ids)))
      else Ok(captures[id])
    }

    /** `store_data`: a present entry gets the samples, the channel count and
        the sample rate and keeps everything else; an absent id is an error
        that changes nothing. */
    method StoreData(id: string, data: Samples, numChannels: int, sampleRate: int)
      returns (error: Option<CaptureNotFoundError>)
      requires Valid()
      modifies this
      ensures Valid()
      ensures error.Some? <==> id !in old(ids)
      ensures error.Some? ==> error.value.message == NotFoundMessage(id, old(ids))
      ensures counter == old(counter) && ids == old(ids)
      ensures captures == if id in old(captures) then old(captures)[id := WithData(old(captures)[id], data, numChannels, sampleRate)]
                          else old(captures)
    {
      var info := Get(id);
      if info.Err? {
        return Some(info.error);
      }
      captures := captures[id := WithData(info.value, data, numChannels, sampleRate)];
      error := None;
    }

    /** What `list_captures` returns: one entry per capture, in insertion order. */
    function Listings(size: string -> nat): (ls: seq<Listing>)
      reads this
      requires Valid()
      ensures |ls| == |ids|
      ensures forall i :: 0 <= i < |ids| ==>
                ls[i].id == ids[i] && ls[i].filePath == CaptureFile(baseDir, ids[i])
                && ls[i].numSamples == SampleCount(captures[ids[i]])
    {
      ListingsOf(ids, captures, size)
    }

    /** `list_captures`, its loop over the registry's values. */
    method ListCaptures(size: string -> nat) returns (result: seq<Listing>)
      requires Valid()
      ensures result == Listings(size)
    {
      result := ListEntries(ids, captures, size);
    }

    /** `cleanup`: the registry is emptied but the counter is kept, so no
        later capture reuses an id. */
    method Cleanup()
      requires Valid()
      modifies this
      ensures Valid()
      ensures counter == old(counter)
      ensures ids == [] && captures == map[]
    {
      captures := map[];
      ids := [];
    }
  }

  // ---------------------------------------------------------------------
  // The store of sigrok_mcp: files only
  // ---------------------------------------------------------------------

  /** `CaptureInfo` of the file-only store. */
  datatype FileInfo = FileInfo(captureId: string, filePath: string, createdAt: real, description: string)

  /** One entry of its `list_captures`. */
  datatype FileListing = FileListing(id: string, filePath: string, sizeBytes: nat, createdAt: real, description: string)

  function FileListingOf(info: FileInfo, size: string -> nat): (l: FileListing)
    ensures l.id == info.captureId && l.filePath == info.filePath && l.description == info.description
    ensures l.sizeBytes == size(info.filePath)
  {
    FileListing(info.captureId, info.filePath, size(info.filePath), info.createdAt, info.description)
  }

  function FileListingsOf(ids: seq<string>, captures: map<string, FileInfo>, size: string -> nat): (ls: seq<FileListing>)
    requires forall id :: id in ids ==> id in captures
    ensures |ls| == |ids|
    ensures forall i :: 0 <= i < |ids| ==> ls[i] == FileListingOf(captures[ids[i]], size)
  {
    seq(|ids|, i requires 0 <= i < |ids| => FileListingOf(captures[ids[i]], size))
  }

  /** The loop of `list_captures`, over the registry's ids in order. */
  method ListFileEntries(keys: seq<string>, entries: map<string, FileInfo>, size: string -> nat) returns (result: seq<FileListing>)
    requires forall id :: id in keys ==> id in entries
    ensures result == FileListingsOf(keys, entries, size)
  {
    result := [];
    for i := 0 to |keys|
      invariant |result| == i
      invariant forall k :: 0 <= k < i ==> result[k] == FileListingOf(entries[keys[k]], size)
    {
      var info := entries[keys[i]];
      result := result + [FileListingOf(info, size)];
    }
  }

  class FileStore {
    const baseDir: string
    var counter: nat
    var ids: seq<string>
    var captures: map<string, FileInfo>

    ghost predicate Valid()
      reads this
    {
      && Ordered(ids, counter)
      && (forall id :: id in captures <==> id in ids)
      && (forall id :: id in captures ==> captures[id].captureId == id && captures[id].filePath == CaptureFile(baseDir, id))
    }

    constructor(baseDir: string)
      ensures Valid()
      ensures this.baseDir == baseDir && counter == 0 && ids == [] && captures == map[]
    {
      this.baseDir := baseDir;
      counter := 0;
      ids := [];
      captures := map[];
    }

    /** `new_capture`, as in the other store. */
    method NewCapture(description: string, createdAt: real) returns (id: string, path: string)
      requires Valid()
      modifies this
      ensures Valid()
      ensures counter == old(counter) + 1 && id == CaptureId(counter)
      ensures path == CaptureFile(baseDir, id)
      ensures forall n :: 1 <= n <= old(counter) ==> id != CaptureId(n)
      ensures ids == old(ids) + [id]
      ensures captures == old(captures)[id := FileInfo(id, path, createdAt, description)]
    {
      NextIdFresh(ids, counter);
      counter := counter + 1;
      id := CaptureId(counter);
      path := CaptureFile(baseDir, id);
      if id !in captures {
        ids := ids + [id];
      }
      captures := captures[id := FileInfo(id, path, createdAt, description)];
    }

    function Get(id: string): (r: Result<FileInfo, CaptureNotFoundError>)
      reads this
      requires Valid()
      ensures r.Ok? <==> id in ids
      ensures r.Ok? ==> r.value.captureId == id && r.value.filePath == CaptureFile(baseDir, id)
      ensures r.Err? ==> r.error.message == NotFoundMessage(id, ids)
    {
      if id !in captures then Err(CaptureNotFoundError(NotFoundMessage(id, ids)))
      else Ok(captures[id])
    }

    function Listings(size: string -> nat): (ls: seq<FileListing>)
      reads this
      requires Valid()
      ensures |ls| == |ids|
      ensures forall i :: 0 <= i < |ids| ==>
                ls[i].id == ids[i] && ls[i].filePath == CaptureFile(baseDir, ids[i])
                && ls[i].sizeBytes == size(ls[i].filePath)
    {
      FileListingsOf(ids, captures, size)
    }

    method ListCaptures(size: string -> nat) returns (result: seq<FileListing>)
      requires Valid()
      ensures result == Listings(size)
    {
      result := ListFileEntries(ids, captures, size);
    }

    method Cleanup()
      requires Valid()
      modifies this
      ensures Valid()
      ensures counter == old(counter)
      ensures ids == [] && captures == map[]
    {
      captures := map[];
      ids := [];
    }
  }
}
