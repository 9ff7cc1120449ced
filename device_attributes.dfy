/** The two info producers run on every device and subdevice node:
    `hwloc__levelzero_properties_get` (type, shape counters, identity strings,
    integrated flag, one-shot warning) and `hwloc__levelzero_cqprops_get`
    (command-queue groups). Both only append to the node's info list, so each
    is a function returning the records it appends. */
module DeviceAttributes {
  import opened Options
  import opened LevelZeroApi
  import opened Text
  import opened TopologyTree

  /** The closed set of device-type names; any other vendor value is reported
      as "Unknown". */
  function DeviceTypeName(t: u32): (name: string)
    ensures name in ["GPU", "CPU", "FPGA", "MCA", "VPU", "Unknown"]
    ensures name == "Unknown" <==> !(ZE_DEVICE_TYPE_GPU <= t <= ZE_DEVICE_TYPE_VPU)
  {
    if t == ZE_DEVICE_TYPE_GPU then "GPU"
    else if t == ZE_DEVICE_TYPE_CPU then "CPU"
    else if t == ZE_DEVICE_TYPE_FPGA then "FPGA"
    else if t == ZE_DEVICE_TYPE_MCA then "MCA"
    else if t == ZE_DEVICE_TYPE_VPU then "VPU"
    else "Unknown"
  }

  predicate IsSubdevice(p: CoreProps)
  {
    p.flags & ZE_DEVICE_PROPERTY_FLAG_SUBDEVICE != 0
  }

  predicate IsIntegrated(p: CoreProps)
  {
    p.flags & ZE_DEVICE_PROPERTY_FLAG_INTEGRATED != 0
  }

  /** The Sysman query is skipped only when the core query succeeded and said
      the handle is a subdevice. */
  predicate SkipsSysman(core: Query<CoreProps>)
  {
    core.Ok? && IsSubdevice(core.value)
  }

  const CoreKeys: seq<string> := [
    "LevelZeroDeviceType", "LevelZeroNumSlices", "LevelZeroNumSubslicesPerSlice",
    "LevelZeroNumEUsPerSubslice", "LevelZeroNumThreadsPerEU"]

  const IdentityKeys: seq<string> := [
    "LevelZeroVendor", "LevelZeroModel", "LevelZeroBrand",
    "LevelZeroSerialNumber", "LevelZeroBoardNumber"]

  /** The five records added after a successful core query. */
  function CoreInfos(p: CoreProps): (r: seq<Info>)
  {
    [(CoreKeys[0], DeviceTypeName(p.deviceType)),
     (CoreKeys[1], Decimal(p.numSlices)),
     (CoreKeys[2], Decimal(p.numSubslicesPerSlice)),
     (CoreKeys[3], Decimal(p.numEUsPerSubslice)),
     (CoreKeys[4], Decimal(p.numThreadsPerEU))]
  }

  function IdentityValues(p: SysmanProps): (r: seq<string>)
  {
    [p.vendorName, p.modelName, p.brandName, p.serialNumber, p.boardNumber]
  }

  /** The record for identity string `f`, unless it is the "unknown" sentinel. */
  function IdentityInfo(p: SysmanProps, f: nat): (r: seq<Info>)
    requires f < 5
  {
    if IsUnknown(IdentityValues(p)[f]) then [] else [(IdentityKeys[f], IdentityValues(p)[f])]
  }

  function IdentityInfos(p: SysmanProps): (r: seq<Info>)
  {
    IdentityInfo(p, 0) + IdentityInfo(p, 1) + IdentityInfo(p, 2) + IdentityInfo(p, 3) + IdentityInfo(p, 4)
  }

  /** What one call appends to the node, whether the device is integrated, and
      the new value of the function's static `warned` flag. */
  datatype PropsResult = PropsResult(infos: seq<Info>, isIntegrated: bool, warned: bool)

  /** `hwloc__levelzero_properties_get`: `core` is the answer of
      `zeDeviceGetProperties`, `sysman` that of `zesDeviceGetProperties`
      (only consulted when the handle is not a subdevice). */
  function PropertiesGet(core: Query<CoreProps>, sysman: Query<SysmanProps>, warned: bool): (r: PropsResult)
    ensures r.isIntegrated <==> core.Ok? && IsIntegrated(core.value)
    ensures r.warned <==> warned || (!SkipsSysman(core) && sysman.Fail?)
  {
    var coreInfos := if core.Ok? then CoreInfos(core.value) else [];
    var integrated := core.Ok? && IsIntegrated(core.value);
    if SkipsSysman(core) then PropsResult(coreInfos, integrated, warned)
    else
      match sysman
      case Ok(p) => PropsResult(coreInfos + IdentityInfos(p), integrated, warned)
      case Fail => PropsResult(coreInfos, integrated, true)
  }

  /** After a successful core query the type and the four counters come first,
      each counter in decimal that reads back as the counter, zero included. */
  lemma CountersAlwaysDecimal(core: Query<CoreProps>, sysman: Query<SysmanProps>, warned: bool)
    requires core.Ok?
    ensures var r := PropertiesGet(core, sysman, warned);
      && |r.infos| >= 5
      && r.infos[0] == ("LevelZeroDeviceType", DeviceTypeName(core.value.deviceType))
      && r.infos[1].0 == "LevelZeroNumSlices"
      && ParseDecimal(r.infos[1].1) == Some(core.value.numSlices as nat)
      && r.infos[2].0 == "LevelZeroNumSubslicesPerSlice"
      && ParseDecimal(r.infos[2].1) == Some(core.value.numSubslicesPerSlice as nat)
      && r.infos[3].0 == "LevelZeroNumEUsPerSubslice"
      && ParseDecimal(r.infos[3].1) == Some(core.value.numEUsPerSubslice as nat)
      && r.infos[4].0 == "LevelZeroNumThreadsPerEU"
      && ParseDecimal(r.infos[4].1) == Some(core.value.numThreadsPerEU as nat)
  {
    var p := core.value;
    DecimalRoundTrip(p.numSlices);
    DecimalRoundTrip(p.numSubslicesPerSlice);
    DecimalRoundTrip(p.numEUsPerSubslice);
    DecimalRoundTrip(p.numThreadsPerEU);
  }

  /** A failed core query adds none of the five core records and leaves the
      device "not integrated". */
  lemma CoreFailureAddsNoCoreInfo(sysman: Query<SysmanProps>, warned: bool)
    ensures var r := PropertiesGet(Fail, sysman, warned);
      && !r.isIntegrated
      && forall i :: 0 <= i < |r.infos| ==> r.infos[i].0 !in CoreKeys
  {
    if sysman.Ok? {
      var ids := IdentityInfos(sysman.value);
      forall i | 0 <= i < |ids| ensures ids[i].0 in IdentityKeys {
        IdentityKeyOrigin(sysman.value, i);
      }
    }
  }

  lemma IdentityKeyOrigin(p: SysmanProps, i: nat)
    requires i < |IdentityInfos(p)|
    ensures IdentityInfos(p)[i].0 in IdentityKeys
  {
  }

  /** A subdevice gets exactly the core records: no identity string, and the
      warning flag is left alone, whatever Sysman would have answered. */
  lemma SubdeviceGetsNoIdentity(core: Query<CoreProps>, sysman: Query<SysmanProps>, warned: bool)
    requires SkipsSysman(core)
    ensures var r := PropertiesGet(core, sysman, warned);
      && |r.infos| == 5
      && (forall i :: 0 <= i < |r.infos| ==> r.infos[i].0 !in IdentityKeys)
      && r.warned == warned
  {
  }

  /** Identity string `f` appears (with value `v`) exactly when the handle is
      not a subdevice, the Sysman query succeeded, `v` is the reported string
      and it is not case-insensitively "unknown". */
  lemma IdentityAttribute(core: Query<CoreProps>, sysman: Query<SysmanProps>, warned: bool, f: nat, v: string)
    requires f < 5
    ensures (IdentityKeys[f], v) in PropertiesGet(core, sysman, warned).infos
        <==> !SkipsSysman(core) && sysman.Ok? && v == IdentityValues(sysman.value)[f] && !IsUnknown(v)
  {
    var coreInfos := if core.Ok? then CoreInfos(core.value) else [];
    assert (IdentityKeys[f], v) !in coreInfos;
    if !SkipsSysman(core) && sysman.Ok? {
      IdentityInfosMember(sysman.value, f, v);
    }
  }

  lemma IdentityInfosMember(p: SysmanProps, f: nat, v: string)
    requires f < 5
    ensures (IdentityKeys[f], v) in IdentityInfos(p) <==> v == IdentityValues(p)[f] && !IsUnknown(v)
  {
    var x := (IdentityKeys[f], v);
    forall g | 0 <= g < 5
      ensures x in IdentityInfo(p, g) <==> g == f && v == IdentityValues(p)[f] && !IsUnknown(v)
    {
      assert g != f ==> IdentityKeys[g] != IdentityKeys[f];
    }
    var a := IdentityInfo(p, 0) + IdentityInfo(p, 1);
    var b := a + IdentityInfo(p, 2);
    var c := b + IdentityInfo(p, 3);
    assert IdentityInfos(p) == c + IdentityInfo(p, 4);
    assert x in a <==> x in IdentityInfo(p, 0) || x in IdentityInfo(p, 1);
    assert x in b <==> x in a || x in IdentityInfo(p, 2);
    assert x in c <==> x in b || x in IdentityInfo(p, 3);
  }

  /** The position of an identity key among the five (vendor, model, brand,
      serial number, board number), 5 for any other key. */
  function IdentityRank(key: string): (r: nat)
    ensures r <= 5
    ensures r < 5 <==> key in IdentityKeys
    ensures r < 5 ==> IdentityKeys[r] == key
  {
    if key == IdentityKeys[0] then 0
    else if key == IdentityKeys[1] then 1
    else if key == IdentityKeys[2] then 2
    else if key == IdentityKeys[3] then 3
    else if key == IdentityKeys[4] then 4
    else 5
  }

  /** Every record of `s` is an identity record of rank `lo` or above, and
      the ranks strictly increase along `s`: the identity strings come in
      the fixed order, each at most once. */
  predicate IdentityOrdered(s: seq<Info>, lo: nat)
  {
    && (forall a :: 0 <= a < |s| ==> lo <= IdentityRank(s[a].0) < 5)
    && (forall a, b :: 0 <= a < b < |s| ==> IdentityRank(s[a].0) < IdentityRank(s[b].0))
  }

  lemma IdentityRankOfKey(f: nat)
    requires f < 5
    ensures IdentityRank(IdentityKeys[f]) == f
  {
    assert forall g :: 0 <= g < 5 && g != f ==> IdentityKeys[g] != IdentityKeys[f];
  }

  lemma IdentityInfoOrdered(p: SysmanProps, f: nat, rest: seq<Info>)
    requires f < 5 && IdentityOrdered(rest, f + 1)
    ensures IdentityOrdered(IdentityInfo(p, f) + rest, f)
  {
    IdentityRankOfKey(f);
    if IdentityInfo(p, f) == [] {
      assert IdentityInfo(p, f) + rest == rest;
    }
  }

  lemma {:induction false} IdentityInfosOrdered(p: SysmanProps)
    ensures IdentityOrdered(IdentityInfos(p), 0)
  {
    assert IdentityInfo(p, 4) + [] == IdentityInfo(p, 4);
    IdentityInfoOrdered(p, 4, []);
    var i3 := IdentityInfo(p, 3) + IdentityInfo(p, 4);
    IdentityInfoOrdered(p, 3, IdentityInfo(p, 4));
    var i2 := IdentityInfo(p, 2) + i3;
    IdentityInfoOrdered(p, 2, i3);
    var i1 := IdentityInfo(p, 1) + i2;
    IdentityInfoOrdered(p, 1, i2);
    IdentityInfoOrdered(p, 0, i1);
    assert IdentityInfos(p) == IdentityInfo(p, 0) + i1;
  }

  /** The whole record list: the five core records when the core query
      succeeded, followed only by identity records, in vendor, model, brand,
      serial number, board number order and each at most once. Together with
      `IdentityAttribute` this fixes the list completely. */
  lemma PropertiesGetLayout(core: Query<CoreProps>, sysman: Query<SysmanProps>, warned: bool)
    ensures var r := PropertiesGet(core, sysman, warned);
      var n := if core.Ok? then 5 else 0;
      && |r.infos| >= n
      && (core.Ok? ==> r.infos[..5] == CoreInfos(core.value))
      && IdentityOrdered(r.infos[n..], 0)
  {
    var r := PropertiesGet(core, sysman, warned);
    var coreInfos := if core.Ok? then CoreInfos(core.value) else [];
    var n := if core.Ok? then 5 else 0;
    var ids := if !SkipsSysman(core) && sysman.Ok? then IdentityInfos(sysman.value) else [];
    assert r.infos == coreInfos + ids;
    assert r.infos[n..] == ids;
    if ids != [] {
      IdentityInfosOrdered(sysman.value);
    }
  }

  /** The one-shot warning: once set it stays set, and only a Sysman failure
      on a non-subdevice handle sets it. */
  lemma WarnedIsOneShot(core: Query<CoreProps>, sysman: Query<SysmanProps>, warned: bool)
    ensures warned ==> PropertiesGet(core, sysman, warned).warned
    ensures !warned && PropertiesGet(core, sysman, warned).warned ==> sysman.Fail? && !SkipsSysman(core)
  {
  }

  // ---------------------------------------------------------------------------
  // Command-queue groups

  const CqGroupKeyPrefix: string := "LevelZeroCQGroup"

  function CqGroupKey(k: nat): (r: string)
  {
    CqGroupKeyPrefix + Decimal(k)
  }

  /** `"%u*0x%lx"` of the queue count and the flags. */
  function CqGroupValue(g: CqGroup): (r: string)
  {
    Decimal(g.numQueues) + "*0x" + Hex(g.flags)
  }

  /** `hwloc__levelzero_cqprops_get`: nothing unless both enumeration calls
      succeed with a nonzero count; then the group count followed by one record
      per group, in order. */
  function CqPropsGet(cq: Listing<CqGroup>): (r: seq<Info>)
    ensures Listed(cq).None? ==> r == []
    ensures Listed(cq).Some? ==> |r| == 1 + |Listed(cq).value|
  {
    match Listed(cq)
    case None => []
    case Some(groups) =>
      [("LevelZeroCQGroups", Decimal(|groups|))]
        + seq(|groups|, k requires 0 <= k < |groups| => (CqGroupKey(k), CqGroupValue(groups[k])))
  }

  /** Reads a `LevelZeroCQGroup<k>` key back into `k`. */
  function ParseCqGroupKey(key: string): (r: Option<nat>)
  {
    if |key| >= |CqGroupKeyPrefix| && key[..|CqGroupKeyPrefix|] == CqGroupKeyPrefix
    then ParseDecimal(key[|CqGroupKeyPrefix|..])
    else None
  }

  /** Reads a `<numQueues>*0x<flags>` value back into the group it describes. */
  function ParseCqGroupValue(s: string): (r: Option<CqGroup>)
  {
    var i := IndexOf(s, '*');
    var rest := s[i..];
    if |rest| < 3 || rest[..3] != "*0x" then None
    else
      match (ParseDecimal(s[..i]), ParseHex(rest[3..]))
      case (Some(q), Some(f)) =>
        if q < 0x1_0000_0000 && f < 0x1_0000_0000 then Some(CqGroup(q, f)) else None
      case _ => None
  }

  lemma CqGroupValueRoundTrip(g: CqGroup)
    ensures ParseCqGroupValue(CqGroupValue(g)) == Some(g)
  {
    var d := Decimal(g.numQueues);
    var s := CqGroupValue(g);
    assert s == d + ("*0x" + Hex(g.flags));
    DecimalDigits(g.numQueues);
    IndexOfAfterDigits(d, "*0x" + Hex(g.flags), '*');
    assert s[..|d|] == d;
    assert s[|d|..] == "*0x" + Hex(g.flags);
    assert s[|d|..][3..] == Hex(g.flags);
    DecimalRoundTrip(g.numQueues);
    HexRoundTrip(g.flags);
  }

  lemma CqGroupKeyRoundTrip(k: nat)
    ensures ParseCqGroupKey(CqGroupKey(k)) == Some(k)
  {
    assert CqGroupKey(k)[|CqGroupKeyPrefix|..] == Decimal(k);
    DecimalRoundTrip(k);
  }

  /** When the groups are listed, the first record is their count and record
      `k + 1` names group `k` and encodes its queue count and flags: each
      reads back as what the vendor reported. */
  lemma CqGroupsReadBack(cq: Listing<CqGroup>, k: nat)
    requires Listed(cq).Some? && k < |Listed(cq).value|
    ensures var r := CqPropsGet(cq);
      var groups := Listed(cq).value;
      && r[0].0 == "LevelZeroCQGroups"
      && ParseDecimal(r[0].1) == Some(|groups|)
      && ParseCqGroupKey(r[k + 1].0) == Some(k)
      && ParseCqGroupValue(r[k + 1].1) == Some(groups[k])
  {
    DecimalRoundTrip(|Listed(cq).value|);
    CqGroupKeyRoundTrip(k);
    CqGroupValueRoundTrip(Listed(cq).value[k]);
  }

  /** The per-group keys are pairwise distinct. */
  lemma CqGroupKeysDistinct(cq: Listing<CqGroup>, k: nat, l: nat)
    requires Listed(cq).Some? && k < l < |Listed(cq).value|
    ensures CqPropsGet(cq)[k + 1].0 != CqPropsGet(cq)[l + 1].0
  {
    assert CqPropsGet(cq)[k + 1].0 == CqGroupKey(k);
    assert CqPropsGet(cq)[l + 1].0 == CqGroupKey(l);
    CqGroupKeyRoundTrip(k);
    CqGroupKeyRoundTrip(l);
  }
}
