/**
 * The two spec parsers of the native backend: `_parse_channel_spec` turns
 * `0-3,5` into a set of channel numbers, and `_parse_triggers` turns
 * `0=r,1=0` into a map from channel to trigger match name. A part that is
 * not a number makes Python's `int()` raise `ValueError`.
 */
module NativeSpec {
  import opened Wrappers
  import opened PyText

  // ---------------------------------------------------------------------
  // Channel specs
  // ---------------------------------------------------------------------

  /** `range(a, b + 1)` as a set. */
  function Span(a: int, b: int): (s: set<int>)
    ensures forall c :: c in s <==> a <= c <= b
    decreases b - a
  {
    if b < a then {} else Span(a, b - 1) + {b}
  }

  /** One comma part, stripped: `a-b` (split at the first `-`) is the
      inclusive range, anything else a single channel. */
  function PartChannels(part: string): Result<set<int>, PyError> {
    var p := Strip(part);
    if Contains(p, "-") then
      match (ParseInt(Before(p, "-")), ParseInt(After(p, "-")))
      case (Some(a), Some(b)) => Ok(Span(a, b))
      case _ => Err(ValueError)
    else
      match ParseInt(p)
      case Some(c) => Ok({c})
      case None => Err(ValueError)
  }

  /** What each part yields, in order. */
  function PartResults(parts: seq<string>): (rs: seq<Result<set<int>, PyError>>)
    ensures |rs| == |parts|
  {
    seq(|parts|, i requires 0 <= i < |parts| => PartChannels(parts[i]))
  }

  /** The union of the parts' channels, failing at the first part that fails. */
  function Union(rs: seq<Result<set<int>, PyError>>): Result<set<int>, PyError> {
    if rs == [] then Ok({})
    else
      match Union(rs[..|rs| - 1])
      case Err(e) => Err(e)
      case Ok(s) =>
        match rs[|rs| - 1]
        case Err(e) => Err(e)
        case Ok(t) => Ok(s + t)
  }

  function ChannelSpec(spec: string): Result<set<int>, PyError> {
    Union(PartResults(SplitOn(spec, ',')))
  }

  /** `_parse_channel_spec`: `channels.update(...)` / `channels.add(...)` per
      part, raising at the first part that is not a number or a range. */
  method ParseChannelSpec(spec: string) returns (r: Result<set<int>, PyError>)
    ensures r == ChannelSpec(spec)
  {
    var parts := SplitOn(spec, ',');
    ghost var rs := PartResults(parts);
    var channels: set<int> := {};
    for i := 0 to |parts|
      invariant Union(rs[..i]) == Ok(channels)
    {
      assert rs[..i + 1][..i] == rs[..i];
      var next := AddPart(parts[i], channels);
      assert rs[i] == PartChannels(parts[i]);
      if next.Err? {
        UnionErrorSticks(rs, i + 1);
        return next;
      }
      channels := next.value;
    }
    assert rs[..|parts|] == rs;
    r := Ok(channels);
  }

  /** The loop body: one part's channels added to the set so far. */
  method AddPart(part0: string, channels: set<int>) returns (r: Result<set<int>, PyError>)
    ensures r == match PartChannels(part0) case Ok(t) => Ok(channels + t) case Err(e) => Err(e)
  {
    var part := Strip(part0);
    if Contains(part, "-") {
      var start, end := ParseInt(Before(part, "-")), ParseInt(After(part, "-"));
      if start.None? || end.None? {
        return Err(ValueError);
      }
      r := Ok(channels + Span(start.value, end.value));
    } else {
      var c := ParseInt(part);
      if c.None? {
        return Err(ValueError);
      }
      r := Ok(channels + {c.value});
    }
  }

  /** Once a part fails, the whole spec fails with that error. */
  lemma {:induction false} UnionErrorSticks(rs: seq<Result<set<int>, PyError>>, k: nat)
    requires k <= |rs| && Union(rs[..k]).Err?
    ensures Union(rs) == Union(rs[..k])
    decreases |rs| - k
  {
    if k < |rs| {
      assert rs[..k + 1][..k] == rs[..k];
      UnionErrorSticks(rs, k + 1);
    } else {
      assert rs[..k] == rs;
    }
  }

  /** The union succeeds exactly when every part does, and then holds a
      channel exactly when some part selects it. */
  lemma {:induction false} UnionMembers(rs: seq<Result<set<int>, PyError>>)
    ensures Union(rs).Ok? <==> forall i :: 0 <= i < |rs| ==> rs[i].Ok?
    ensures Union(rs).Ok? ==>
              forall c :: c in Union(rs).value <==> exists i :: 0 <= i < |rs| && rs[i].Ok? && c in rs[i].value
  {
    if rs != [] {
      var init := rs[..|rs| - 1];
      UnionMembers(init);
      assert forall i :: 0 <= i < |init| ==> init[i] == rs[i];
      if Union(rs).Ok? {
        forall c ensures c in Union(rs).value <==> exists i :: 0 <= i < |rs| && rs[i].Ok? && c in rs[i].value {
          if c in Union(init).value {
            var i :| 0 <= i < |init| && init[i].Ok? && c in init[i].value;
            assert rs[i] == init[i];
          }
        }
      }
    }
  }

  /** `_parse_channel_spec` succeeds exactly when every comma part is a
      number or a range of numbers. */
  lemma PartsParse(parts: seq<string>)
    ensures Union(PartResults(parts)).Ok? <==> forall i :: 0 <= i < |parts| ==> PartChannels(parts[i]).Ok?
  {
    var rs := PartResults(parts);
    UnionMembers(rs);
    assert forall i :: 0 <= i < |parts| ==> rs[i] == PartChannels(parts[i]);
  }

  /** When it succeeds, it selects exactly the channels some part names. */
  lemma PartsMembers(parts: seq<string>, c: int)
    requires Union(PartResults(parts)).Ok?
    ensures c in Union(PartResults(parts)).value <==>
              exists i :: 0 <= i < |parts| && PartChannels(parts[i]).Ok? && c in PartChannels(parts[i]).value
  {
    var rs := PartResults(parts);
    UnionMembers(rs);
    assert forall i :: 0 <= i < |parts| ==> rs[i] == PartChannels(parts[i]);
  }

  /** A range part selects every channel from its start to its end. */
  lemma RangePart(part: string, a: int, b: int)
    requires Contains(Strip(part), "-")
    requires ParseInt(Before(Strip(part), "-")) == Some(a) && ParseInt(After(Strip(part), "-")) == Some(b)
    ensures PartChannels(part) == Ok(Span(a, b))
  {
  }

  // ---------------------------------------------------------------------
  // Trigger specs
  // ---------------------------------------------------------------------

  /** `_TRIGGER_MAP`. */
  function TriggerName(m: string): Option<string> {
    if m == "0" then Some("ZERO")
    else if m == "1" then Some("ONE")
    else if m == "r" then Some("RISING")
    else if m == "f" then Some("FALLING")
    else if m == "e" then Some("EDGE")
    else None
  }

  /** What one pair does: nothing without `=`, a `ValueError` when the
      channel is not a number, and otherwise sets the channel when the
      stripped, lower-cased match letter is known. */
  datatype PairEffect = Skip | Fail | SetTrigger(ch: int, name: string)

  function PairOf(pair: string): PairEffect {
    var p := Strip(pair);
    if !Contains(p, "=") then Skip
    else
      match ParseInt(Strip(Before(p, "=")))
      case None => Fail
      case Some(ch) =>
        match TriggerName(Lower(Strip(After(p, "="))))
        case None => Skip
        case Some(name) => SetTrigger(ch, name)
  }

  function PairEffects(pairs: seq<string>): (es: seq<PairEffect>)
    ensures |es| == |pairs|
  {
    seq(|pairs|, i requires 0 <= i < |pairs| => PairOf(pairs[i]))
  }

  /** One pair applied to the map built so far. */
  function Apply(acc: Result<map<int, string>, PyError>, e: PairEffect): Result<map<int, string>, PyError> {
    match acc
    case Err(err) => Err(err)
    case Ok(m) =>
      match e
      case Skip => Ok(m)
      case Fail => Err(ValueError)
      case SetTrigger(ch, name) => Ok(m[ch := name])
  }

  /** The trigger map after the pairs, in order. */
  function TriggerMap(es: seq<PairEffect>): Result<map<int, string>, PyError> {
    if es == [] then Ok(map[]) else Apply(TriggerMap(es[..|es| - 1]), es[|es| - 1])
  }

  function Triggers(triggerStr: string): Result<map<int, string>, PyError> {
    TriggerMap(PairEffects(SplitOn(triggerStr, ',')))
  }

  /** `_parse_triggers`. */
  method ParseTriggers(triggerStr: string) returns (r: Result<map<int, string>, PyError>)
    ensures r == Triggers(triggerStr)
  {
    var pairs := SplitOn(triggerStr, ',');
    var triggers: map<int, string> := map[];
    for i := 0 to |pairs|
      invariant TriggerMap(PairEffects(pairs)[..i]) == Ok(triggers)
    {
      var next := PairStep(pairs, i, triggers);
      if next.Err? {
        return next;
      }
      triggers := next.value;
    }
    assert PairEffects(pairs)[..|pairs|] == PairEffects(pairs);
    r := Ok(triggers);
  }

  /** Pair `i` of the loop: a failure ends the parse with that error. */
  method PairStep(pairs: seq<string>, i: nat, triggers: map<int, string>) returns (next: Result<map<int, string>, PyError>)
    requires i < |pairs| && TriggerMap(PairEffects(pairs)[..i]) == Ok(triggers)
    ensures next == TriggerMap(PairEffects(pairs)[..i + 1])
    ensures next.Err? ==> next == TriggerMap(PairEffects(pairs))
  {
    ghost var es := PairEffects(pairs);
    TriggerMapStep(es, i);
    assert es[i] == PairOf(pairs[i]);
    next := AddPair(pairs[i], triggers);
    if next.Err? {
      TriggerErrorSticks(es, i + 1);
    }
  }

  lemma TriggerMapStep(es: seq<PairEffect>, i: nat)
    requires i < |es|
    ensures TriggerMap(es[..i + 1]) == Apply(TriggerMap(es[..i]), es[i])
  {
    assert es[..i + 1][..i] == es[..i];
  }

  /** The loop body for one pair. */
  method AddPair(pair0: string, triggers: map<int, string>) returns (r: Result<map<int, string>, PyError>)
    ensures r == match PairOf(pair0)
                 case Skip => Ok(triggers)
                 case Fail => Err(ValueError)
                 case SetTrigger(ch, name) => Ok(triggers[ch := name])
  {
    var pair := Strip(pair0);
    if !Contains(pair, "=") {
      return Ok(triggers);
    }
    var ch := ParseInt(Strip(Before(pair, "=")));
    if ch.None? {
      return Err(ValueError);
    }
    var matchName := TriggerName(Lower(Strip(After(pair, "="))));
    if matchName.Some? {
      r := Ok(triggers[ch.value := matchName.value]);
    } else {
      r := Ok(triggers);
    }
  }

  lemma {:induction false} TriggerErrorSticks(es: seq<PairEffect>, k: nat)
    requires k <= |es| && TriggerMap(es[..k]).Err?
    ensures TriggerMap(es) == TriggerMap(es[..k])
    decreases |es| - k
  {
    if k < |es| {
      assert es[..k + 1][..k] == es[..k];
      TriggerErrorSticks(es, k + 1);
    } else {
      assert es[..k] == es;
    }
  }

  /** The trigger map fails exactly when some pair's channel is not a
      number. */
  lemma {:induction false} TriggerFails(es: seq<PairEffect>)
    ensures TriggerMap(es).Err? <==> Fail in es
  {
    if es != [] {
      var init := es[..|es| - 1];
      TriggerFails(init);
      assert es == init + [es[|es| - 1]];
    }
  }

  /** Pair `i` sets channel `ch`. */
  predicate Sets(e: PairEffect, ch: int) {
    e.SetTrigger? && e.ch == ch
  }

  /** Every channel some pair set is in the map. */
  lemma {:induction false} SetChannelsPresent(es: seq<PairEffect>)
    requires TriggerMap(es).Ok?
    ensures forall i :: 0 <= i < |es| && es[i].SetTrigger? ==> es[i].ch in TriggerMap(es).value
  {
    if es != [] {
      var init := es[..|es| - 1];
      SetChannelsPresent(init);
      assert forall i :: 0 <= i < |init| ==> init[i] == es[i];
    }
  }

  /** Each channel of the map holds the match of the last pair that set it. */
  lemma {:induction false} LastPairWins(es: seq<PairEffect>)
    requires TriggerMap(es).Ok?
    ensures forall ch :: ch in TriggerMap(es).value ==>
              exists i :: 0 <= i < |es| && es[i] == SetTrigger(ch, TriggerMap(es).value[ch])
                && forall j :: i < j < |es| ==> !Sets(es[j], ch)
  {
    if es != [] {
      var init := es[..|es| - 1];
      var last := es[|es| - 1];
      LastPairWins(init);
      assert forall i :: 0 <= i < |init| ==> init[i] == es[i];
      var m := TriggerMap(init).value;
      var m' := TriggerMap(es).value;
      forall ch | ch in m'
        ensures exists i :: 0 <= i < |es| && es[i] == SetTrigger(ch, m'[ch])
                  && forall j :: i < j < |es| ==> !Sets(es[j], ch)
      {
        if Sets(last, ch) {
          assert es[|es| - 1] == SetTrigger(ch, m'[ch]);
        } else {
          assert ch in m && m'[ch] == m[ch];
          var i :| 0 <= i < |init| && init[i] == SetTrigger(ch, m[ch])
                   && forall j :: i < j < |init| ==> !Sets(init[j], ch);
          assert es[i] == SetTrigger(ch, m'[ch]);
        }
      }
    }
  }
}
