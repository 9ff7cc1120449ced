/** `hwloc_levelzero_discover`: walk the drivers and their devices, create
    one OS device node per device ("ze<i>") and one per subdevice
    ("ze<i>.<k>"), fill their attributes, and insert them below the PCI
    device they sit on, or below the root.

    `Discovered` is the functional model: a left fold over drivers and devices
    whose step, `DeviceStep`, appends the block of nodes one device creates.
    `Discover` and `AttachDevice` are the loops of the C function, proved
    to produce exactly that. */
module Discovery {
  import opened Options
  import opened LevelZeroApi
  import opened Text
  import opened TopologyTree
  import opened DeviceAttributes
  import opened MemoryInventory

  // ---------------------------------------------------------------------------
  // ZES_ENABLE_SYSMAN

  /** The `sysman_maybe_missing` classification (0: Sysman requested,
      1: the variable was unset, 2: it is set to a value `atoi` reads as 0)
      and the value of the variable after the `putenv` that sets it when it
      is unset. `env` is `atoi` of the variable, `None` when unset. */
  function SysmanMaybeMissing(env: Option<int>): (r: (int, Option<int>))
    ensures r.1.Some?
    ensures r.0 == 1 <==> env.None?
    ensures r.0 == 2 <==> r.1 == Some(0)
    ensures env.Some? ==> r.1 == env
    ensures env.None? ==> r.1 == Some(1)
    ensures env.Some? && env.value != 0 ==> r.0 == 0
  {
    if env.None? then (1, Some(1))
    else if env.value == 0 then (2, env)
    else (0, env)
  }

  // ---------------------------------------------------------------------------
  // Names

  /** `buffer` holds 12 characters and the terminator; `snprintf` cuts a
      longer name. */
  const NameBufferChars: nat := 12

  function Fit(s: string): (r: string)
    ensures |r| <= NameBufferChars
    ensures |s| <= NameBufferChars ==> r == s
    ensures r == s[..|r|]
    ensures |s| > NameBufferChars ==> |r| == NameBufferChars
  {
    if |s| <= NameBufferChars then s else s[..NameBufferChars]
  }

  function DeviceName(zeidx: nat): (r: string)
  {
    Fit("ze" + Decimal(zeidx))
  }

  function FullSubdeviceName(zeidx: nat, k: nat): (r: string)
  {
    "ze" + Decimal(zeidx) + "." + Decimal(k)
  }

  function SubdeviceName(zeidx: nat, k: nat): (r: string)
  {
    Fit(FullSubdeviceName(zeidx, k))
  }

  function Power10(d: nat): (r: nat)
  {
    if d == 0 then 1 else 10 * Power10(d - 1)
  }

  lemma {:induction false} DecimalLength(n: nat, d: nat)
    requires 1 <= d && n < Power10(d)
    ensures |Decimal(n)| <= d
    decreases d
  {
    if n >= 10 {
      assert d >= 2;
      assert n / 10 < Power10(d - 1);
      DecimalLength(n / 10, d - 1);
    }
  }

  /** Every 32-bit `zeidx` fits in the device name buffer, so device names
      are never cut. */
  lemma DeviceNameNotCut(zeidx: nat)
    requires zeidx <= 0xFFFF_FFFF
    ensures DeviceName(zeidx) == "ze" + Decimal(zeidx)
  {
    assert Power10(10) == 10_000_000_000;
    DecimalLength(zeidx, 10);
  }

  /** Two devices with 32-bit indices get the same name only if they have
      the same index. */
  lemma DeviceNamesDistinct(a: nat, b: nat)
    requires a <= 0xFFFF_FFFF && b <= 0xFFFF_FFFF
    ensures DeviceName(a) == DeviceName(b) <==> a == b
  {
    DeviceNameNotCut(a);
    DeviceNameNotCut(b);
    if DeviceName(a) == DeviceName(b) {
      assert Decimal(a) == DeviceName(a)[2..];
      assert Decimal(b) == DeviceName(b)[2..];
      DecimalInjective(a, b);
    }
  }

  /** While they fit in the buffer, subdevice names determine both the device
      index and the subdevice index, and never equal a device name. */
  lemma SubdeviceNamesDistinct(a: nat, k: nat, b: nat, l: nat)
    requires |FullSubdeviceName(a, k)| <= NameBufferChars && |FullSubdeviceName(b, l)| <= NameBufferChars
    ensures SubdeviceName(a, k) == SubdeviceName(b, l) <==> a == b && k == l
    ensures SubdeviceName(a, k) != "ze" + Decimal(b)
  {
    var s := SubdeviceName(a, k);
    SubdeviceNameParts(a, k);
    if s == SubdeviceName(b, l) {
      SubdeviceNameParts(b, l);
      DecimalInjective(a, b);
      DecimalInjective(k, l);
    }
    if s == "ze" + Decimal(b) {
      DecimalDigits(b);
      assert false;
    }
  }

  /** A subdevice name that fits is "ze", the device index, the first '.',
      then the subdevice index. */
  lemma SubdeviceNameParts(a: nat, k: nat)
    requires |FullSubdeviceName(a, k)| <= NameBufferChars
    ensures var s := SubdeviceName(a, k);
      && |s| == 3 + |Decimal(a)| + |Decimal(k)|
      && IndexOf(s[2..], '.') == |Decimal(a)|
      && s[2 + |Decimal(a)|] == '.'
      && s[2..2 + |Decimal(a)|] == Decimal(a)
      && s[3 + |Decimal(a)|..] == Decimal(k)
  {
    var s := SubdeviceName(a, k);
    assert s[2..] == Decimal(a) + ("." + Decimal(k));
    DecimalDigits(a);
    IndexOfAfterDigits(Decimal(a), "." + Decimal(k), '.');
  }

  /** Past nine digits in all, `"ze%u.%u"` no longer fits the buffer: the
      first subdevice of device 1000000000 is named like the device. */
  lemma LongSubdeviceNameIsCut()
    ensures SubdeviceName(1_000_000_000, 0) == DeviceName(1_000_000_000)
  {
    var d := Decimal(1_000_000_000);
    assert Power10(9) == 1_000_000_000;
    assert Power10(10) == 10_000_000_000;
    DecimalLength(1_000_000_000, 10);
    DecimalAtLeast(1_000_000_000, 9);
    assert |"ze" + d| == 12;
    assert FullSubdeviceName(1_000_000_000, 0)[..12] == "ze" + d;
  }

  lemma {:induction false} DecimalAtLeast(n: nat, d: nat)
    requires Power10(d) <= n
    ensures |Decimal(n)| >= d + 1
    decreases d
  {
    if d > 0 {
      assert Power10(d - 1) <= n / 10;
      DecimalAtLeast(n / 10, d - 1);
    }
  }

  // ---------------------------------------------------------------------------
  // One device

  /** The discovery state: the topology's objects, the statics and `zeidx`. */
  datatype Pass = Pass(objs: seq<Obj>, selection: SourceSelection, warned: bool, zeidx: nat)

  /** The subdevice handles the loop walks: none when the count query
      failed, returned zero, or the arrays could not be allocated. */
  function UsedSubdevices(dev: DeviceInput): (r: seq<SubdeviceInput>)
  {
    if dev.subdevices.Ok? && dev.subAllocOk then dev.subdevices.value else []
  }

  /** `LevelZeroSubdevices`, recorded whenever the count is positive, even if
      the arrays then cannot be allocated. */
  function SubdeviceCountInfo(dev: DeviceInput): (r: seq<Info>)
  {
    if dev.subdevices.Ok? && |dev.subdevices.value| > 0
    then [("LevelZeroSubdevices", Decimal(|dev.subdevices.value|))]
    else []
  }

  function SubCoreMemory(subs: seq<SubdeviceInput>): (r: seq<Listing<CoreMemory>>)
    ensures |r| == |subs|
  {
    seq(|subs|, k requires 0 <= k < |subs| => subs[k].coreMemory)
  }

  /** The `warned` static after the properties of all of `subs`: set once
      some subdevice that is not known to be one had its Sysman query fail
      (see `PropertiesGet`). */
  function WarnedAfter(subs: seq<SubdeviceInput>, warned: bool): (r: bool)
  {
    if subs == [] then warned
    else
      var last := subs[|subs| - 1];
      WarnedAfter(subs[..|subs| - 1], warned) || (!SkipsSysman(last.core) && last.sysman.Fail?)
  }

  /** The device node with its indices, properties and command-queue
      groups. */
  function DeviceHeadObj(dev: DeviceInput, i: nat, j: nat, zeidx: nat, props: PropsResult): (r: Obj)
  {
    Obj(DeviceName(zeidx), "LevelZero",
        [("Backend", "LevelZero"), ("LevelZeroDriverIndex", Decimal(i)), ("LevelZeroDriverDeviceIndex", Decimal(j))]
          + props.infos + CqPropsGet(dev.cqGroups),
        None)
  }

  /** The device node before its memory attributes and its insertion. */
  function DeviceBaseObj(dev: DeviceInput, i: nat, j: nat, zeidx: nat, props: PropsResult): (r: Obj)
  {
    WithInfos(DeviceHeadObj(dev, i, j, zeidx, props), SubdeviceCountInfo(dev))
  }

  /** Subdevice node `k` before its memory attributes and its insertion, its
      properties read from its own handle. */
  function SubdeviceBaseObj(zeidx: nat, k: nat, sub: SubdeviceInput, warned: bool): (r: Obj)
  {
    Obj(SubdeviceName(zeidx, k), "LevelZero",
        [("Backend", "LevelZero"), ("LevelZeroSubdeviceID", Decimal(k))]
          + PropertiesGet(sub.core, sub.sysman, warned).infos + CqPropsGet(sub.cqGroups),
        None)
  }

  function SubdeviceBaseObjs(zeidx: nat, subs: seq<SubdeviceInput>, warned: bool): (r: seq<Obj>)
    ensures |r| == |subs|
  {
    seq(|subs|, k requires 0 <= k < |subs| => SubdeviceBaseObj(zeidx, k, subs[k], WarnedAfter(subs[..k], warned)))
  }

  /** `hwloc_pci_find_parent_by_busid()` is the partial map `busParents`
      from PCI addresses to handles; without a PCI address or without a
      parent the node goes below the root. */
  function ChooseParent(pci: Query<PciAddress>, busParents: map<PciAddress, nat>): (r: nat)
  {
    if pci.Ok? && pci.value in busParents then busParents[pci.value] else Root
  }

  /** The block of a device after `hwloc__levelzero_memory_get` and the
      insertions: the device node (block[0]) gets `rootExtra` and `parent`,
      subdevice node `t` gets `subExtras[t - 1]` and the device as parent. */
  function Finish(block: seq<Obj>, rootExtra: seq<Info>, subExtras: seq<seq<Info>>, base: nat, parent: nat)
    : (r: seq<Obj>)
    requires |block| == |subExtras| + 1
    ensures |r| == |block|
  {
    seq(|block|, t requires 0 <= t < |block| =>
      if t == 0 then WithInfos(block[0], rootExtra).(parent := Some(parent))
      else WithInfos(block[t], subExtras[t - 1]).(parent := Some(base)))
  }

  /** One iteration of the device loop (driver `i`, device `j`). */
  function DeviceStep(st: Pass, dev: DeviceInput, i: nat, j: nat, env: Option<int>,
                      busParents: map<PciAddress, nat>): (r: Pass)
  {
    var props := PropertiesGet(dev.core, dev.sysman, st.warned);
    var subs := UsedSubdevices(dev);
    var step := SelectSource(st.selection, env, !dev.sysmanMemory.CountFailed?, props.isIntegrated);
    var block := [DeviceBaseObj(dev, i, j, st.zeidx, props)] + SubdeviceBaseObjs(st.zeidx, subs, props.warned);
    var extras := SubMemoryInfoLists(step.0, dev.sysmanMemory, SubCoreMemory(subs));
    Pass(st.objs + Finish(block, RootMemoryInfos(step.0, dev.sysmanMemory, dev.coreMemory), extras,
                          |st.objs|, ChooseParent(dev.pci, busParents)),
         step.1, WarnedAfter(subs, props.warned), st.zeidx + 1)
  }

  // ---------------------------------------------------------------------------
  // All drivers

  /** The device loop of driver `i` over the first `n` of its devices `devs`. */
  function DevicesFold(st: Pass, devs: seq<DeviceInput>, n: nat, i: nat, env: Option<int>,
                       busParents: map<PciAddress, nat>): (r: Pass)
    requires n <= |devs|
  {
    if n == 0 then st
    else DeviceStep(DevicesFold(st, devs, n - 1, i, env, busParents), devs[n - 1], i, n - 1, env, busParents)
  }

  /** The driver loop over the first `n` drivers: a driver whose device
      listing fails or is empty is skipped. */
  function DriversFold(st: Pass, drivers: seq<DriverInput>, n: nat, env: Option<int>,
                       busParents: map<PciAddress, nat>): (r: Pass)
    requires n <= |drivers|
  {
    if n == 0 then st
    else
      var prev := DriversFold(st, drivers, n - 1, env, busParents);
      match Listed(drivers[n - 1].devices)
      case None => prev
      case Some(devs) => DevicesPass(prev, devs, |devs|, n - 1, env, busParents)
  }

  /** The state after the first `n` turns of the device loop. The contracts
      below name the folds through these two non-recursive functions, so
      that each proof obligation unfolds a fold one step only. */
  function DevicesPass(st: Pass, devs: seq<DeviceInput>, n: nat, i: nat, env: Option<int>,
                       busParents: map<PciAddress, nat>): (r: Pass)
    requires n <= |devs|
  {
    DevicesFold(st, devs, n, i, env, busParents)
  }

  /** The state after the first `n` turns of the driver loop. */
  function DriversPass(st: Pass, drivers: seq<DriverInput>, n: nat, env: Option<int>,
                       busParents: map<PciAddress, nat>): (r: Pass)
    requires n <= |drivers|
  {
    DriversFold(st, drivers, n, env, busParents)
  }

  /** The whole discovery: nothing when the OS device filter is KEEP_NONE,
      when `zeInit` fails or when the driver listing fails or is empty;
      `zeidx` restarts at 0. */
  function Discovered(objs: seq<Obj>, selection: SourceSelection, warned: bool, keepNone: bool,
                      platform: Platform, env: Option<int>, busParents: map<PciAddress, nat>): (r: Pass)
  {
    var st := Pass(objs, selection, warned, 0);
    if keepNone || !platform.initOk then st
    else
      match Listed(platform.drivers)
      case None => st
      case Some(drivers) => DriversPass(st, drivers, |drivers|, env, busParents)
  }

  // ---------------------------------------------------------------------------
  // Properties of the fold

  /** One device appends its block, the device node then one node per
      subdevice it walks, after the existing nodes, which it leaves as they
      were, and consumes one `zeidx`. */
  lemma DeviceStepExtends(st: Pass, dev: DeviceInput, i: nat, j: nat, env: Option<int>,
                          busParents: map<PciAddress, nat>)
    ensures var r := DeviceStep(st, dev, i, j, env, busParents);
      && |r.objs| == |st.objs| + 1 + |UsedSubdevices(dev)|
      && st.objs <= r.objs
      && r.zeidx == st.zeidx + 1
  {
    var props := PropertiesGet(dev.core, dev.sysman, st.warned);
    var subs := UsedSubdevices(dev);
    var step := SelectSource(st.selection, env, !dev.sysmanMemory.CountFailed?, props.isIntegrated);
    var block := [DeviceBaseObj(dev, i, j, st.zeidx, props)] + SubdeviceBaseObjs(st.zeidx, subs, props.warned);
    var extras := SubMemoryInfoLists(step.0, dev.sysmanMemory, SubCoreMemory(subs));
    var added := Finish(block, RootMemoryInfos(step.0, dev.sysmanMemory, dev.coreMemory), extras,
                        |st.objs|, ChooseParent(dev.pci, busParents));
    assert DeviceStep(st, dev, i, j, env, busParents).objs == st.objs + added;
    AppendKeepsPrefix(st.objs, added);
  }

  lemma AppendKeepsPrefix(a: seq<Obj>, b: seq<Obj>)
    ensures a <= a + b
  {
  }

  /** `Finish` at position `t` of the block: the node keeps its name, its
      subtype and its attributes, followed by the memory ones, and gets the
      parent `Finish` gives it. */
  lemma FinishAt(block: seq<Obj>, rootExtra: seq<Info>, subExtras: seq<seq<Info>>, base: nat, parent: nat, t: nat)
    requires |block| == |subExtras| + 1 && t < |block|
    ensures var o := Finish(block, rootExtra, subExtras, base, parent)[t];
      && o.name == block[t].name
      && o.subtype == block[t].subtype
      && |block[t].infos| <= |o.infos| && o.infos[..|block[t].infos|] == block[t].infos
      && o.parent == Some(if t == 0 then parent else base)
  {
    var o := Finish(block, rootExtra, subExtras, base, parent)[t];
    assert o.infos == block[t].infos + (if t == 0 then rootExtra else subExtras[t - 1]);
  }

  /** The device node of a step: named after `zeidx`, below its PCI parent
      or the root, its attributes starting with those of `DeviceBaseObj`. */
  lemma StepDeviceNode(st: Pass, dev: DeviceInput, i: nat, j: nat, env: Option<int>,
                       busParents: map<PciAddress, nat>)
    ensures var r := DeviceStep(st, dev, i, j, env, busParents);
      var b := DeviceBaseObj(dev, i, j, st.zeidx, PropertiesGet(dev.core, dev.sysman, st.warned));
      && |st.objs| < |r.objs|
      && r.objs[|st.objs|].name == DeviceName(st.zeidx)
      && r.objs[|st.objs|].parent == Some(ChooseParent(dev.pci, busParents))
      && |b.infos| <= |r.objs[|st.objs|].infos| && r.objs[|st.objs|].infos[..|b.infos|] == b.infos
  {
    var props := PropertiesGet(dev.core, dev.sysman, st.warned);
    var subs := UsedSubdevices(dev);
    var step := SelectSource(st.selection, env, !dev.sysmanMemory.CountFailed?, props.isIntegrated);
    var block := [DeviceBaseObj(dev, i, j, st.zeidx, props)] + SubdeviceBaseObjs(st.zeidx, subs, props.warned);
    var extras := SubMemoryInfoLists(step.0, dev.sysmanMemory, SubCoreMemory(subs));
    var rootExtra := RootMemoryInfos(step.0, dev.sysmanMemory, dev.coreMemory);
    var parent := ChooseParent(dev.pci, busParents);
    var added := Finish(block, rootExtra, extras, |st.objs|, parent);
    assert DeviceStep(st, dev, i, j, env, busParents).objs == st.objs + added;
    FinishAt(block, rootExtra, extras, |st.objs|, parent, 0);
  }

  /** Subdevice node `k` of a step: named after `zeidx` and `k`, below the
      device node, its attributes starting with those of `SubdeviceBaseObj`
      for subdevice `k`. */
  lemma StepSubdeviceNode(st: Pass, dev: DeviceInput, i: nat, j: nat, env: Option<int>,
                          busParents: map<PciAddress, nat>, k: nat)
    requires k < |UsedSubdevices(dev)|
    ensures var r := DeviceStep(st, dev, i, j, env, busParents);
      var subs := UsedSubdevices(dev);
      var b := SubdeviceBaseObj(st.zeidx, k, subs[k],
                                WarnedAfter(subs[..k], PropertiesGet(dev.core, dev.sysman, st.warned).warned));
      && |st.objs| + 1 + k < |r.objs|
      && r.objs[|st.objs| + 1 + k].name == SubdeviceName(st.zeidx, k)
      && r.objs[|st.objs| + 1 + k].parent == Some(|st.objs|)
      && |b.infos| <= |r.objs[|st.objs| + 1 + k].infos|
      && r.objs[|st.objs| + 1 + k].infos[..|b.infos|] == b.infos
  {
    var props := PropertiesGet(dev.core, dev.sysman, st.warned);
    var subs := UsedSubdevices(dev);
    var step := SelectSource(st.selection, env, !dev.sysmanMemory.CountFailed?, props.isIntegrated);
    var block := [DeviceBaseObj(dev, i, j, st.zeidx, props)] + SubdeviceBaseObjs(st.zeidx, subs, props.warned);
    var extras := SubMemoryInfoLists(step.0, dev.sysmanMemory, SubCoreMemory(subs));
    var rootExtra := RootMemoryInfos(step.0, dev.sysmanMemory, dev.coreMemory);
    var parent := ChooseParent(dev.pci, busParents);
    var added := Finish(block, rootExtra, extras, |st.objs|, parent);
    assert DeviceStep(st, dev, i, j, env, busParents).objs == st.objs + added;
    assert block[1 + k] == SubdeviceBaseObjs(st.zeidx, subs, props.warned)[k];
    FinishAt(block, rootExtra, extras, |st.objs|, parent, 1 + k);
  }

  /** The block one device adds: the device node named after `zeidx` below
      its PCI parent or the root, then its subdevice nodes, named after
      `zeidx` and their index, below the device. */
  lemma DeviceBlock(st: Pass, dev: DeviceInput, i: nat, j: nat, env: Option<int>,
                    busParents: map<PciAddress, nat>)
    ensures var r := DeviceStep(st, dev, i, j, env, busParents);
      var base := |st.objs|;
      && |r.objs| == base + 1 + |UsedSubdevices(dev)|
      && r.objs[base].name == DeviceName(st.zeidx)
      && r.objs[base].parent == Some(ChooseParent(dev.pci, busParents))
      && (forall k :: 0 <= k < |UsedSubdevices(dev)| ==>
            r.objs[base + 1 + k].name == SubdeviceName(st.zeidx, k)
            && r.objs[base + 1 + k].parent == Some(base))
  {
    DeviceStepExtends(st, dev, i, j, env, busParents);
    StepDeviceNode(st, dev, i, j, env, busParents);
    forall k | 0 <= k < |UsedSubdevices(dev)|
      ensures DeviceStep(st, dev, i, j, env, busParents).objs[|st.objs| + 1 + k].name == SubdeviceName(st.zeidx, k)
      ensures DeviceStep(st, dev, i, j, env, busParents).objs[|st.objs| + 1 + k].parent == Some(|st.objs|)
    {
      StepSubdeviceNode(st, dev, i, j, env, busParents, k);
    }
  }

  /** Corrected line 451: subdevice node `k` is described by subdevice `k`'s
      own properties: its `LevelZeroSubdeviceID` is `k` and, when its core
      query succeeds, its `LevelZeroNumSlices` reads back as that
      subdevice's slice count. */
  lemma SubdeviceDescribesItself(st: Pass, dev: DeviceInput, i: nat, j: nat, env: Option<int>,
                                 busParents: map<PciAddress, nat>, k: nat)
    requires k < |UsedSubdevices(dev)|
    ensures var r := DeviceStep(st, dev, i, j, env, busParents);
      var o := r.objs[|st.objs| + 1 + k];
      var sub := UsedSubdevices(dev)[k];
      && |o.infos| >= 2
      && o.infos[1] == ("LevelZeroSubdeviceID", Decimal(k))
      && (sub.core.Ok? ==>
            |o.infos| >= 4 && o.infos[3].0 == "LevelZeroNumSlices"
            && ParseDecimal(o.infos[3].1) == Some(sub.core.value.numSlices as nat))
  {
    var subs := UsedSubdevices(dev);
    var w := WarnedAfter(subs[..k], PropertiesGet(dev.core, dev.sysman, st.warned).warned);
    var b := SubdeviceBaseObj(st.zeidx, k, subs[k], w);
    StepSubdeviceNode(st, dev, i, j, env, busParents, k);
    var o := DeviceStep(st, dev, i, j, env, busParents).objs[|st.objs| + 1 + k];
    SubdeviceBaseInfos(st.zeidx, k, subs[k], w, o.infos);
  }

  /** What the attributes of a subdevice node start with, for any list
      `infos` that extends those of `SubdeviceBaseObj`. */
  lemma SubdeviceBaseInfos(zeidx: nat, k: nat, sub: SubdeviceInput, w: bool, infos: seq<Info>)
    requires var b := SubdeviceBaseObj(zeidx, k, sub, w); |b.infos| <= |infos| && infos[..|b.infos|] == b.infos
    ensures |infos| >= 2 && infos[1] == ("LevelZeroSubdeviceID", Decimal(k))
    ensures sub.core.Ok? ==>
      |infos| >= 4 && infos[3].0 == "LevelZeroNumSlices"
      && ParseDecimal(infos[3].1) == Some(sub.core.value.numSlices as nat)
  {
    var b := SubdeviceBaseObj(zeidx, k, sub, w);
    var p := PropertiesGet(sub.core, sub.sysman, w);
    assert b.infos == [("Backend", "LevelZero"), ("LevelZeroSubdeviceID", Decimal(k))] + p.infos + CqPropsGet(sub.cqGroups);
    assert infos[1] == b.infos[1];
    if sub.core.Ok? {
      CountersAlwaysDecimal(sub.core, sub.sysman, w);
      assert infos[3] == b.infos[3] == p.infos[1];
    }
  }

  /** A failed subdevice count query behaves like a device without
      subdevices. */
  lemma SubdeviceQueryFailureIsNoSubdevice(st: Pass, dev: DeviceInput, i: nat, j: nat, env: Option<int>,
                                           busParents: map<PciAddress, nat>)
    requires dev.subdevices.Fail?
    ensures DeviceStep(st, dev, i, j, env, busParents)
         == DeviceStep(st, dev.(subdevices := Ok([])), i, j, env, busParents)
  {
    assert SubdeviceCountInfo(dev) == SubdeviceCountInfo(dev.(subdevices := Ok([])));
    assert UsedSubdevices(dev) == UsedSubdevices(dev.(subdevices := Ok([])));
  }

  /** When the subdevice arrays cannot be allocated, the device still
      records the count it was told, yet gets no subdevice node. */
  lemma AllocFailureKeepsCount(st: Pass, dev: DeviceInput, i: nat, j: nat, env: Option<int>,
                               busParents: map<PciAddress, nat>)
    requires dev.subdevices.Ok? && |dev.subdevices.value| > 0 && !dev.subAllocOk
    ensures var r := DeviceStep(st, dev, i, j, env, busParents);
      && |r.objs| == |st.objs| + 1
      && ("LevelZeroSubdevices", Decimal(|dev.subdevices.value|)) in r.objs[|st.objs|].infos
  {
    var props := PropertiesGet(dev.core, dev.sysman, st.warned);
    var b := DeviceBaseObj(dev, i, j, st.zeidx, props);
    assert b.infos[|b.infos| - 1] == ("LevelZeroSubdevices", Decimal(|dev.subdevices.value|));
    var r := DeviceStep(st, dev, i, j, env, busParents);
    var rest := RootMemoryInfos(SelectSource(st.selection, env, !dev.sysmanMemory.CountFailed?,
                                             props.isIntegrated).0, dev.sysmanMemory, dev.coreMemory);
    assert r.objs[|st.objs|].infos == b.infos + rest;
    assert r.objs[|st.objs|].infos[|b.infos| - 1] == b.infos[|b.infos| - 1];
  }

  /** The number of devices driver `d` lists, 0 when its listing fails. */
  function DriverDevices(d: DriverInput): (r: nat)
  {
    match Listed(d.devices) case None => 0 case Some(devs) => |devs|
  }

  /** The number of devices of the first `n` drivers that the loops visit. */
  function ListedDevices(drivers: seq<DriverInput>, n: nat): (r: nat)
    requires n <= |drivers|
  {
    if n == 0 then 0
    else ListedDevices(drivers, n - 1) + DriverDevices(drivers[n - 1])
  }

  // ---------------------------------------------------------------------------
  // Names over the whole run

  /** `objs` extends `base`, leaving its nodes as they were, and the nodes at
      `slots` (increasing handles past `base`) are named after consecutive
      indices from `z0`. */
  predicate NamedDevices(base: seq<Obj>, objs: seq<Obj>, slots: seq<nat>, z0: nat)
  {
    && |base| <= |objs|
    && (forall h :: 0 <= h < |base| ==> objs[h] == base[h])
    && (forall u :: 0 <= u < |slots| ==> |base| <= slots[u] < |objs| && objs[slots[u]].name == DeviceName(z0 + u))
    && (forall u, v :: 0 <= u < v < |slots| ==> slots[u] < slots[v])
  }

  lemma NamedNone(base: seq<Obj>, z0: nat)
    ensures NamedDevices(base, base, [], z0)
  {
  }

  /** One more node named after the next index, appended at the end of `a`. */
  lemma NamedSnoc(base: seq<Obj>, a: seq<Obj>, b: seq<Obj>, slots: seq<nat>, z0: nat, z: nat)
    requires NamedDevices(base, a, slots, z0)
    requires |a| < |b| && (forall h :: 0 <= h < |a| ==> b[h] == a[h])
    requires z == z0 + |slots| && b[|a|].name == DeviceName(z)
    ensures NamedDevices(base, b, slots + [|a|], z0)
  {
    var s := slots + [|a|];
    forall u | 0 <= u < |s|
      ensures |base| <= s[u] < |b| && b[s[u]].name == DeviceName(z0 + u)
    {
      if u < |slots| {
        assert s[u] == slots[u];
      }
    }
  }

  /** Two runs of named nodes, one after the other. */
  lemma NamedConcat(base: seq<Obj>, a: seq<Obj>, b: seq<Obj>, s1: seq<nat>, s2: seq<nat>, z0: nat, z: nat)
    requires z == z0 + |s1|
    requires NamedDevices(base, a, s1, z0) && NamedDevices(a, b, s2, z)
    ensures NamedDevices(base, b, s1 + s2, z0)
  {
    var s := s1 + s2;
    forall u | 0 <= u < |s|
      ensures |base| <= s[u] < |b| && b[s[u]].name == DeviceName(z0 + u)
    {
      if u < |s1| {
        assert s[u] == s1[u];
      } else {
        assert s[u] == s2[u - |s1|];
      }
    }
    forall u, v | 0 <= u < v < |s|
      ensures s[u] < s[v]
    {
      if v < |s1| || |s1| <= u {
      } else {
        assert s[u] == s1[u] && s[v] == s2[v - |s1|];
      }
    }
  }

  /** The handles of the device nodes the first `n` turns of the device loop
      create. */
  function DeviceSlots(st: Pass, devs: seq<DeviceInput>, n: nat, i: nat, env: Option<int>,
                       busParents: map<PciAddress, nat>): (r: seq<nat>)
    requires n <= |devs|
    ensures |r| == n
  {
    if n == 0 then []
    else DeviceSlots(st, devs, n - 1, i, env, busParents) + [|DevicesPass(st, devs, n - 1, i, env, busParents).objs|]
  }

  /** One turn of the device loop as seen from outside: one more `zeidx`, the
      existing nodes kept, and a node named after the old `zeidx` at the old
      end. */
  lemma DevicesPassStep(st: Pass, devs: seq<DeviceInput>, m: nat, i: nat, env: Option<int>,
                        busParents: map<PciAddress, nat>)
    requires m < |devs|
    ensures var a := DevicesPass(st, devs, m, i, env, busParents);
      var b := DevicesPass(st, devs, m + 1, i, env, busParents);
      && b.zeidx == a.zeidx + 1
      && |a.objs| < |b.objs|
      && (forall h :: 0 <= h < |a.objs| ==> b.objs[h] == a.objs[h])
      && b.objs[|a.objs|].name == DeviceName(a.zeidx)
  {
    var a := DevicesPass(st, devs, m, i, env, busParents);
    DevicesPassNext(st, devs, m, i, env, busParents);
    DeviceStepExtends(a, devs[m], i, m, env, busParents);
    StepDeviceNode(a, devs[m], i, m, env, busParents);
  }

  /** Turn `n - 1` of the device loop extends the naming of the turns before
      it. */
  lemma DevicesPassNamesNext(st: Pass, devs: seq<DeviceInput>, n: nat, i: nat, env: Option<int>,
                             busParents: map<PciAddress, nat>)
    requires 0 < n <= |devs|
    requires var a := DevicesPass(st, devs, n - 1, i, env, busParents);
      a.zeidx == st.zeidx + (n - 1) && NamedDevices(st.objs, a.objs, DeviceSlots(st, devs, n - 1, i, env, busParents), st.zeidx)
    ensures var b := DevicesPass(st, devs, n, i, env, busParents);
      b.zeidx == st.zeidx + n && NamedDevices(st.objs, b.objs, DeviceSlots(st, devs, n, i, env, busParents), st.zeidx)
  {
    var a := DevicesPass(st, devs, n - 1, i, env, busParents);
    var slots := DeviceSlots(st, devs, n - 1, i, env, busParents);
    DevicesPassStep(st, devs, n - 1, i, env, busParents);
    assert DeviceSlots(st, devs, n, i, env, busParents) == slots + [|a.objs|];
    NamedSnoc(st.objs, a.objs, DevicesPass(st, devs, n, i, env, busParents).objs, slots, st.zeidx, a.zeidx);
  }

  /** The device loop keeps the existing nodes, and its `t`-th device node is
      named after `zeidx + t`. */
  lemma {:induction false} DevicesPassNames(st: Pass, devs: seq<DeviceInput>, n: nat, i: nat, env: Option<int>,
                                            busParents: map<PciAddress, nat>)
    requires n <= |devs|
    ensures var r := DevicesPass(st, devs, n, i, env, busParents);
      && r.zeidx == st.zeidx + n
      && NamedDevices(st.objs, r.objs, DeviceSlots(st, devs, n, i, env, busParents), st.zeidx)
    decreases n
  {
    if n == 0 {
      NamedNone(st.objs, st.zeidx);
    } else {
      DevicesPassNames(st, devs, n - 1, i, env, busParents);
      DevicesPassNamesNext(st, devs, n, i, env, busParents);
    }
  }

  /** One turn of the driver loop: the devices of driver `m`, when listed,
      get nodes named after the next indices, and the existing nodes are
      kept. */
  lemma DriverTurnNames(st: Pass, drivers: seq<DriverInput>, m: nat, env: Option<int>,
                        busParents: map<PciAddress, nat>)
    requires m < |drivers|
    ensures var a := DriversPass(st, drivers, m, env, busParents);
      var b := DriversPass(st, drivers, m + 1, env, busParents);
      exists t :: |t| == DriverDevices(drivers[m]) && b.zeidx == a.zeidx + |t| && NamedDevices(a.objs, b.objs, t, a.zeidx)
  {
    DriversPassNext(st, drivers, m, env, busParents);
    var a := DriversPass(st, drivers, m, env, busParents);
    var b := DriversPass(st, drivers, m + 1, env, busParents);
    match Listed(drivers[m].devices)
    case None =>
      assert DriverDevices(drivers[m]) == 0;
      assert b == a;
      NamedNone(a.objs, a.zeidx);
      var none: seq<nat> := [];
      assert |none| == 0 && b.zeidx == a.zeidx + |none| && NamedDevices(a.objs, b.objs, none, a.zeidx);
    case Some(devs) =>
      assert DriverDevices(drivers[m]) == |devs|;
      assert b == DevicesPass(a, devs, |devs|, m, env, busParents);
      DevicesTurnNames(a, devs, m, env, busParents, b);
  }

  /** The devices of one driver, named after the indices from `a.zeidx`. */
  lemma DevicesTurnNames(a: Pass, devs: seq<DeviceInput>, i: nat, env: Option<int>,
                         busParents: map<PciAddress, nat>, b: Pass)
    requires b == DevicesPass(a, devs, |devs|, i, env, busParents)
    ensures exists t :: |t| == |devs| && b.zeidx == a.zeidx + |t| && NamedDevices(a.objs, b.objs, t, a.zeidx)
  {
    DevicesPassNames(a, devs, |devs|, i, env, busParents);
    var t := DeviceSlots(a, devs, |devs|, i, env, busParents);
    assert |t| == |devs| && b.zeidx == a.zeidx + |t| && NamedDevices(a.objs, b.objs, t, a.zeidx);
  }

  /** After the first `n` turns of the driver loop, the existing nodes are
      kept and the `u`-th device visited, of `ListedDevices` in all, has a
      node named after `zeidx + u`, at increasing handles. */
  ghost predicate DriversNamed(st: Pass, drivers: seq<DriverInput>, n: nat, env: Option<int>,
                               busParents: map<PciAddress, nat>)
    requires n <= |drivers|
  {
    var r := DriversPass(st, drivers, n, env, busParents);
    exists slots :: |slots| == ListedDevices(drivers, n) && r.zeidx == st.zeidx + |slots|
                    && NamedDevices(st.objs, r.objs, slots, st.zeidx)
  }

  /** Turn `m` of the driver loop extends the naming of the turns before
      it. */
  lemma {:induction false} DriversPassNamesNext(st: Pass, drivers: seq<DriverInput>, m: nat, env: Option<int>,
                                                busParents: map<PciAddress, nat>)
    requires m < |drivers|
    ensures DriversNamed(st, drivers, m + 1, env, busParents)
    decreases m, 2
  {
    DriversPassNames(st, drivers, m, env, busParents);
    var a := DriversPass(st, drivers, m, env, busParents);
    var s1 :| |s1| == ListedDevices(drivers, m) && a.zeidx == st.zeidx + |s1| && NamedDevices(st.objs, a.objs, s1, st.zeidx);
    DriversNamedStep(st, drivers, m, env, busParents, s1);
  }

  /** The devices of driver `m` continue the naming `s1` of the drivers
      before it. */
  lemma DriversNamedStep(st: Pass, drivers: seq<DriverInput>, m: nat, env: Option<int>,
                         busParents: map<PciAddress, nat>, s1: seq<nat>)
    requires m < |drivers|
    requires var a := DriversPass(st, drivers, m, env, busParents);
      |s1| == ListedDevices(drivers, m) && a.zeidx == st.zeidx + |s1| && NamedDevices(st.objs, a.objs, s1, st.zeidx)
    ensures DriversNamed(st, drivers, m + 1, env, busParents)
  {
    var a := DriversPass(st, drivers, m, env, busParents);
    var b := DriversPass(st, drivers, m + 1, env, busParents);
    DriverTurnNames(st, drivers, m, env, busParents);
    var t :| |t| == DriverDevices(drivers[m]) && b.zeidx == a.zeidx + |t| && NamedDevices(a.objs, b.objs, t, a.zeidx);
    NamedConcat(st.objs, a.objs, b.objs, s1, t, st.zeidx, a.zeidx);
    var s := s1 + t;
    assert |s| == ListedDevices(drivers, m + 1) && b.zeidx == st.zeidx + |s| && NamedDevices(st.objs, b.objs, s, st.zeidx);
  }

  /** Before the driver loop nothing is named yet. */
  lemma DriversPassNamesZero(st: Pass, drivers: seq<DriverInput>, env: Option<int>,
                             busParents: map<PciAddress, nat>)
    ensures DriversNamed(st, drivers, 0, env, busParents)
  {
    NamedNone(st.objs, st.zeidx);
    var none: seq<nat> := [];
    var r := DriversPass(st, drivers, 0, env, busParents);
    assert |none| == ListedDevices(drivers, 0) && r.zeidx == st.zeidx + |none| && NamedDevices(st.objs, r.objs, none, st.zeidx);
  }

  /** The driver loop names the devices it visits in order. */
  lemma {:induction false} DriversPassNames(st: Pass, drivers: seq<DriverInput>, n: nat, env: Option<int>,
                                            busParents: map<PciAddress, nat>)
    requires n <= |drivers|
    ensures DriversNamed(st, drivers, n, env, busParents)
    decreases n, 1
  {
    if n == 0 {
      DriversPassNamesZero(st, drivers, env, busParents);
    } else {
      DriversPassNamesNext(st, drivers, n - 1, env, busParents);
    }
  }

  /** A whole discovery leaves every node that existed before it as it was,
      and gives each visited device, `zeidx` of them, a node named `ze0`,
      `ze1`, ... in visiting order, at increasing handles; while the count
      fits in 32 bits no two of these names are equal. */
  lemma DiscoveredNames(objs: seq<Obj>, selection: SourceSelection, warned: bool, keepNone: bool,
                        platform: Platform, env: Option<int>, busParents: map<PciAddress, nat>)
    ensures var r := Discovered(objs, selection, warned, keepNone, platform, env, busParents);
      exists slots :: |slots| == r.zeidx && NamedDevices(objs, r.objs, slots, 0)
                      && (r.zeidx <= 0x1_0000_0000 ==>
                            forall u, v :: 0 <= u < v < |slots| ==> r.objs[slots[u]].name != r.objs[slots[v]].name)
  {
    var r := Discovered(objs, selection, warned, keepNone, platform, env, busParents);
    var slots: seq<nat> := [];
    if keepNone || !platform.initOk || Listed(platform.drivers).None? {
      NamedNone(objs, 0);
      assert r.objs == objs && r.zeidx == 0;
    } else {
      var drivers := Listed(platform.drivers).value;
      var st := Pass(objs, selection, warned, 0);
      DriversPassNames(st, drivers, |drivers|, env, busParents);
      assert r == DriversPass(st, drivers, |drivers|, env, busParents);
      slots :| |slots| == ListedDevices(drivers, |drivers|) && r.zeidx == 0 + |slots| && NamedDevices(objs, r.objs, slots, 0);
    }
    if r.zeidx <= 0x1_0000_0000 {
      forall u, v | 0 <= u < v < |slots|
        ensures r.objs[slots[u]].name != r.objs[slots[v]].name
      {
        DeviceNamesDistinct(u, v);
      }
    }
    assert |slots| == r.zeidx && NamedDevices(objs, r.objs, slots, 0);
  }

  // ---------------------------------------------------------------------------
  // Line 451 as written

  /** The properties line 451 actually reads for subdevice node `k` of the
      device at index `j` of its driver: those of `subh[j]`, whatever `k`
      is; `None` when `j` is past the end of `subh`, an out-of-bounds read. */
  function SubdevicePropsAsWritten(subs: seq<SubdeviceInput>, j: nat, k: nat, warned: bool): (r: Option<PropsResult>)
    requires k < |subs|
    ensures r.Some? <==> j < |subs|
    ensures j == k ==> r == Some(PropertiesGet(subs[k].core, subs[k].sysman, warned))
  {
    if j < |subs| then Some(PropertiesGet(subs[j].core, subs[j].sysman, warned)) else None
  }

  function SlicesOnly(slices: u32): (r: SubdeviceInput)
  {
    SubdeviceInput(Ok(CoreProps(ZE_DEVICE_TYPE_GPU, ZE_DEVICE_PROPERTY_FLAG_SUBDEVICE, slices, 1, 1, 1)),
                   Fail, CountFailed, CountFailed)
  }

  /** The second device of a driver (j = 1), with two subdevices of 1 and
      2 slices: as written, subdevice node 0 reports 2 slices, the count of
      subdevice 1; with a third device (j = 2) the read is out of bounds. */
  lemma SubdeviceHandleMixup()
    ensures var subs := [SlicesOnly(1), SlicesOnly(2)];
      && SubdevicePropsAsWritten(subs, 1, 0, false).value.infos[1] == ("LevelZeroNumSlices", "2")
      && PropertiesGet(subs[0].core, subs[0].sysman, false).infos[1] == ("LevelZeroNumSlices", "1")
      && SubdevicePropsAsWritten(subs, 2, 0, false).None?
  {
    assert Decimal(2) == "2";
    assert Decimal(1) == "1";
  }

  // ---------------------------------------------------------------------------
  // The loops

  /** The discovery state as held by the topology and the statics. */
  function PassOf(topo: Topology, statics: Statics, zeidx: nat): (r: Pass)
    reads topo, statics
  {
    Pass(topo.objs, statics.Selection(), statics.warned, zeidx)
  }

  function Handles(base: nat, n: nat): (r: seq<nat>)
    ensures |r| == n
  {
    seq(n, k requires 0 <= k < n => base + 1 + k)
  }

  /** Lines 441-452, one iteration: subdevice node `k`, described from its
      own handle (line 451 corrected). */
  method NewSubdevice(topo: Topology, statics: Statics, zeidx: nat, k: nat, sub: SubdeviceInput)
    returns (h: nat)
    requires topo.Valid()
    modifies topo, statics`warned
    ensures topo.Valid()
    ensures h == |old(topo.objs)|
    ensures topo.objs == old(topo.objs) + [SubdeviceBaseObj(zeidx, k, sub, old(statics.warned))]
    ensures statics.warned == (old(statics.warned) || (!SkipsSysman(sub.core) && sub.sysman.Fail?))
  {
    h := topo.AllocOsDev(SubdeviceName(zeidx, k));
    topo.AddInfos(h, [("LevelZeroSubdeviceID", Decimal(k))]);
    var props := PropertiesGet(sub.core, sub.sysman, statics.warned);
    topo.AddInfos(h, props.infos);
    statics.warned := props.warned;
    topo.AddInfos(h, CqPropsGet(sub.cqGroups));
    InfoPair(("Backend", "LevelZero"), ("LevelZeroSubdeviceID", Decimal(k)));
  }

  lemma InfoPair(x: Info, y: Info)
    ensures [x] + [y] == [x, y]
  {
  }

  lemma SubdeviceBaseObjsSnoc(zeidx: nat, subs: seq<SubdeviceInput>, warned: bool, k: nat)
    requires k < |subs|
    ensures SubdeviceBaseObjs(zeidx, subs[..k + 1], warned)
      == SubdeviceBaseObjs(zeidx, subs[..k], warned) + [SubdeviceBaseObj(zeidx, k, subs[k], WarnedAfter(subs[..k], warned))]
  {
    var a := SubdeviceBaseObjs(zeidx, subs[..k + 1], warned);
    var b := SubdeviceBaseObjs(zeidx, subs[..k], warned) + [SubdeviceBaseObj(zeidx, k, subs[k], WarnedAfter(subs[..k], warned))];
    forall l | 0 <= l <= k ensures a[l] == b[l] {
      SubdeviceBaseObjsOfPrefix(zeidx, subs, warned, k + 1, l);
      if l < k {
        SubdeviceBaseObjsOfPrefix(zeidx, subs, warned, k, l);
      }
    }
  }

  lemma SubdeviceBaseObjsOfPrefix(zeidx: nat, subs: seq<SubdeviceInput>, warned: bool, m: nat, l: nat)
    requires l < m <= |subs|
    ensures SubdeviceBaseObjs(zeidx, subs[..m], warned)[l] == SubdeviceBaseObj(zeidx, l, subs[l], WarnedAfter(subs[..l], warned))
  {
    assert subs[..m][..l] == subs[..l];
  }

  lemma WarnedAfterSnoc(subs: seq<SubdeviceInput>, warned: bool, k: nat)
    requires k < |subs|
    ensures WarnedAfter(subs[..k + 1], warned)
         == (WarnedAfter(subs[..k], warned) || (!SkipsSysman(subs[k].core) && subs[k].sysman.Fail?))
  {
    assert subs[..k + 1][..k] == subs[..k];
  }

  /** Lines 440-454: create and describe the subdevice nodes, in order. */
  method CreateSubdevices(topo: Topology, statics: Statics, zeidx: nat, subs: seq<SubdeviceInput>)
    returns (handles: seq<nat>)
    requires topo.Valid()
    modifies topo, statics`warned
    ensures topo.Valid()
    ensures handles == seq(|subs|, k requires 0 <= k < |subs| => |old(topo.objs)| + k)
    ensures topo.objs == old(topo.objs) + SubdeviceBaseObjs(zeidx, subs, old(statics.warned))
    ensures statics.warned == WarnedAfter(subs, old(statics.warned))
  {
    ghost var objs0 := topo.objs;
    ghost var w0 := statics.warned;
    handles := [];
    for k := 0 to |subs|
      invariant topo.Valid()
      invariant topo.objs == objs0 + SubdeviceBaseObjs(zeidx, subs[..k], w0)
      invariant statics.warned == WarnedAfter(subs[..k], w0)
      invariant handles == seq(k, l requires 0 <= l < k => |objs0| + l)
    {
      var h := CreateNextSubdevice(topo, statics, zeidx, subs, k, objs0, w0);
      handles := handles + [h];
    }
    assert subs[..|subs|] == subs;
  }

  /** One turn of the subdevice loop: node `k` goes after nodes `0..k-1`. */
  method CreateNextSubdevice(topo: Topology, statics: Statics, zeidx: nat, subs: seq<SubdeviceInput>, k: nat,
                             ghost objs0: seq<Obj>, ghost w0: bool)
    returns (h: nat)
    requires topo.Valid() && k < |subs|
    requires topo.objs == objs0 + SubdeviceBaseObjs(zeidx, subs[..k], w0)
    requires statics.warned == WarnedAfter(subs[..k], w0)
    modifies topo, statics`warned
    ensures topo.Valid()
    ensures h == |objs0| + k
    ensures topo.objs == objs0 + SubdeviceBaseObjs(zeidx, subs[..k + 1], w0)
    ensures statics.warned == WarnedAfter(subs[..k + 1], w0)
  {
    h := NewSubdevice(topo, statics, zeidx, k, subs[k]);
    SubdeviceBaseObjsSnoc(zeidx, subs, w0, k);
    WarnedAfterSnoc(subs, w0, k);
  }

  /** Lines 407-423: the device node with its indices, its properties and
      its command-queue groups. */
  method NewDevice(topo: Topology, statics: Statics, dev: DeviceInput, i: nat, j: nat, zeidx: nat)
    returns (osdev: nat, props: PropsResult)
    requires topo.Valid()
    modifies topo, statics`warned
    ensures topo.Valid()
    ensures osdev == |old(topo.objs)|
    ensures props == PropertiesGet(dev.core, dev.sysman, old(statics.warned))
    ensures topo.objs == old(topo.objs) + [DeviceHeadObj(dev, i, j, zeidx, props)]
    ensures statics.warned == props.warned
  {
    osdev := topo.AllocOsDev(DeviceName(zeidx));
    topo.AddInfos(osdev, [("LevelZeroDriverIndex", Decimal(i)), ("LevelZeroDriverDeviceIndex", Decimal(j))]);
    props := PropertiesGet(dev.core, dev.sysman, statics.warned);
    topo.AddInfos(osdev, props.infos);
    statics.warned := props.warned;
    topo.AddInfos(osdev, CqPropsGet(dev.cqGroups));
    assert [("Backend", "LevelZero")] + [("LevelZeroDriverIndex", Decimal(i)), ("LevelZeroDriverDeviceIndex", Decimal(j))]
      == [("Backend", "LevelZero"), ("LevelZeroDriverIndex", Decimal(i)), ("LevelZeroDriverDeviceIndex", Decimal(j))];
  }

  /** Lines 429-461: the subdevice count record and the subdevice nodes. */
  method AddSubdevices(topo: Topology, statics: Statics, dev: DeviceInput, zeidx: nat, osdev: nat)
    returns (subs: seq<SubdeviceInput>, subosdevs: seq<nat>)
    requires topo.Valid() && osdev == |topo.objs| - 1
    modifies topo, statics`warned
    ensures topo.Valid()
    ensures subs == UsedSubdevices(dev) && subosdevs == Handles(osdev, |subs|)
    ensures topo.objs == old(topo.objs)[..osdev] + [WithInfos(old(topo.objs)[osdev], SubdeviceCountInfo(dev))]
                         + SubdeviceBaseObjs(zeidx, subs, old(statics.warned))
    ensures statics.warned == WarnedAfter(subs, old(statics.warned))
  {
    ghost var objs0 := topo.objs;
    ghost var head := objs0[..osdev] + [WithInfos(objs0[osdev], SubdeviceCountInfo(dev))];
    subs := [];
    subosdevs := [];
    if dev.subdevices.Ok? && |dev.subdevices.value| > 0 {
      topo.AddInfos(osdev, [("LevelZeroSubdevices", Decimal(|dev.subdevices.value|))]);
      assert topo.objs == head;
      if dev.subAllocOk {
        subs := dev.subdevices.value;
        subosdevs := CreateSubdevices(topo, statics, zeidx, subs);
        assert subosdevs == Handles(osdev, |subs|);
      } else {
        assert SubdeviceBaseObjs(zeidx, subs, old(statics.warned)) == [];
      }
    } else {
      assert objs0[osdev].infos + [] == objs0[osdev].infos;
      assert topo.objs == head;
      assert SubdeviceBaseObjs(zeidx, subs, old(statics.warned)) == [];
    }
  }

  /** Lines 484-489: the device below `parent`, its subdevices below it. */
  method InsertBlock(topo: Topology, osdev: nat, parent: nat, subosdevs: seq<nat>)
    requires osdev + |subosdevs| < |topo.objs| && subosdevs == Handles(osdev, |subosdevs|)
    modifies topo
    ensures |topo.objs| == |old(topo.objs)|
    ensures forall h :: 0 <= h < |topo.objs| ==> topo.objs[h] == Inserted(old(topo.objs), h, osdev, |subosdevs|, parent)
  {
    ghost var objs0 := topo.objs;
    topo.InsertByParent(parent, osdev);
    var k := 0;
    while k < |subosdevs|
      invariant 0 <= k <= |subosdevs|
      invariant |topo.objs| == |objs0|
      invariant forall h :: 0 <= h < |objs0| ==> topo.objs[h] == Inserted(objs0, h, osdev, k, parent)
    {
      topo.InsertByParent(osdev, subosdevs[k]);
      k := k + 1;
    }
  }

  /** The target state of the insertion loop, object by object. */
  function Inserted(objs: seq<Obj>, h: nat, base: nat, n: nat, parent: nat): (r: Obj)
    requires h < |objs|
  {
    if h == base then objs[h].(parent := Some(parent))
    else if base < h <= base + n then objs[h].(parent := Some(base))
    else objs[h]
  }

  lemma AssembleBlock(objs0: seq<Obj>, block: seq<Obj>, rootExtra: seq<Info>, subExtras: seq<seq<Info>>,
                      parent: nat, applied: seq<Obj>, final: seq<Obj>)
    requires |block| == |subExtras| + 1
    requires DistinctHandles(objs0 + block, |objs0|, Handles(|objs0|, |subExtras|))
    requires MemoryApplied(objs0 + block, applied, |objs0|, Handles(|objs0|, |subExtras|), rootExtra, subExtras)
    requires |final| == |applied|
    requires forall h :: 0 <= h < |applied| ==> final[h] == Inserted(applied, h, |objs0|, |subExtras|, parent)
    ensures final == objs0 + Finish(block, rootExtra, subExtras, |objs0|, parent)
  {
    var target := objs0 + Finish(block, rootExtra, subExtras, |objs0|, parent);
    forall h | 0 <= h < |final| ensures final[h] == target[h] {
      AssembleAt(objs0, block, rootExtra, subExtras, parent, applied, final, h);
    }
  }

  lemma AssembleAt(objs0: seq<Obj>, block: seq<Obj>, rootExtra: seq<Info>, subExtras: seq<seq<Info>>,
                   parent: nat, applied: seq<Obj>, final: seq<Obj>, h: nat)
    requires |block| == |subExtras| + 1
    requires DistinctHandles(objs0 + block, |objs0|, Handles(|objs0|, |subExtras|))
    requires MemoryApplied(objs0 + block, applied, |objs0|, Handles(|objs0|, |subExtras|), rootExtra, subExtras)
    requires h < |final| == |applied|
    requires final[h] == Inserted(applied, h, |objs0|, |subExtras|, parent)
    ensures final[h] == (objs0 + Finish(block, rootExtra, subExtras, |objs0|, parent))[h]
  {
    var base := |objs0|;
    var hs := Handles(base, |subExtras|);
    if h < base {
      assert h !in hs;
      assert applied[h] == objs0[h];
    } else if h == base {
      assert applied[h] == WithInfos(block[0], rootExtra);
    } else {
      assert hs[h - base - 1] == h;
      assert applied[h] == WithInfos(block[h - base], subExtras[h - base - 1]);
    }
  }

  /** Lines 407-461: the device node and its subdevice nodes, in order,
      before any memory attribute and insertion. */
  method BuildBlock(topo: Topology, statics: Statics, dev: DeviceInput, i: nat, j: nat, zeidx: nat)
    returns (osdev: nat, props: PropsResult, subs: seq<SubdeviceInput>, subosdevs: seq<nat>)
    requires topo.Valid()
    modifies topo, statics`warned
    ensures topo.Valid()
    ensures osdev == |old(topo.objs)|
    ensures props == PropertiesGet(dev.core, dev.sysman, old(statics.warned))
    ensures subs == UsedSubdevices(dev) && subosdevs == Handles(osdev, |subs|)
    ensures topo.objs == old(topo.objs) + ([DeviceBaseObj(dev, i, j, zeidx, props)] + SubdeviceBaseObjs(zeidx, subs, props.warned))
    ensures statics.warned == WarnedAfter(subs, props.warned)
  {
    ghost var objs0 := topo.objs;
    osdev, props := NewDevice(topo, statics, dev, i, j, zeidx);
    ghost var objs1 := topo.objs;
    subs, subosdevs := AddSubdevices(topo, statics, dev, zeidx, osdev);
    ExtendLast(objs0, DeviceHeadObj(dev, i, j, zeidx, props), SubdeviceCountInfo(dev),
               SubdeviceBaseObjs(zeidx, subs, props.warned));
  }

  /** Adding records to the last node of `a + [x]`, then appending `b`. */
  lemma ExtendLast(a: seq<Obj>, x: Obj, extra: seq<Info>, b: seq<Obj>)
    ensures (a + [x])[..|a|] + [WithInfos((a + [x])[|a|], extra)] + b == a + ([WithInfos(x, extra)] + b)
  {
    assert (a + [x])[..|a|] == a;
  }

  /** Lines 464-489: the memory attributes, then the insertion of the device
      below its PCI parent (or the root) and of the subdevices below it;
      `block` is what `BuildBlock` appended. */
  method FinishDevice(topo: Topology, statics: Statics, ghost objs0: seq<Obj>, ghost block: seq<Obj>,
                      osdev: nat, subosdevs: seq<nat>, integrated: bool, dev: DeviceInput,
                      subCoreMem: seq<Listing<CoreMemory>>, env: Option<int>, busParents: map<PciAddress, nat>)
    requires topo.objs == objs0 + block && |block| == |subosdevs| + 1 && |subCoreMem| == |subosdevs|
    requires osdev == |objs0| && subosdevs == Handles(osdev, |subosdevs|)
    modifies topo, statics
    ensures |topo.objs| == |old(topo.objs)|
    ensures statics.warned == old(statics.warned)
    ensures var step := SelectSource(old(statics.Selection()), env, !dev.sysmanMemory.CountFailed?, integrated);
      && statics.Selection() == step.1
      && topo.objs == objs0 + Finish(block, RootMemoryInfos(step.0, dev.sysmanMemory, dev.coreMemory),
                                     SubMemoryInfoLists(step.0, dev.sysmanMemory, subCoreMem),
                                     |objs0|, ChooseParent(dev.pci, busParents))
  {
    HandlesDistinct(objs0, block);
    ghost var step := SelectSource(statics.Selection(), env, !dev.sysmanMemory.CountFailed?, integrated);
    statics.MemoryGet(topo, osdev, subosdevs, integrated, dev.sysmanMemory, dev.coreMemory, subCoreMem, env);
    ghost var applied := topo.objs;
    var parent := ChooseParent(dev.pci, busParents);
    InsertBlock(topo, osdev, parent, subosdevs);
    AssembleBlock(objs0, block, RootMemoryInfos(step.0, dev.sysmanMemory, dev.coreMemory),
                  SubMemoryInfoLists(step.0, dev.sysmanMemory, subCoreMem), parent, applied, topo.objs);
  }

  /** Lines 405-490: one device. */
  method AttachDevice(topo: Topology, statics: Statics, dev: DeviceInput, i: nat, j: nat, zeidx: nat,
                      env: Option<int>, busParents: map<PciAddress, nat>)
    requires topo.Valid()
    modifies topo, statics
    ensures topo.Valid()
    ensures PassOf(topo, statics, zeidx + 1) == DeviceStep(old(PassOf(topo, statics, zeidx)), dev, i, j, env, busParents)
  {
    ghost var st := PassOf(topo, statics, zeidx);
    var osdev, props, subs, subosdevs := BuildBlock(topo, statics, dev, i, j, zeidx);
    FinishDevice(topo, statics, st.objs, [DeviceBaseObj(dev, i, j, zeidx, props)] + SubdeviceBaseObjs(zeidx, subs, props.warned),
                 osdev, subosdevs, props.isIntegrated, dev, SubCoreMemory(subs), env, busParents);
  }

  lemma HandlesDistinct(objs0: seq<Obj>, block: seq<Obj>)
    requires |block| >= 1
    ensures DistinctHandles(objs0 + block, |objs0|, Handles(|objs0|, |block| - 1))
  {
  }

  /** Lines 385-493 for driver `i`: the device loop. */
  method AttachDriverDevices(topo: Topology, statics: Statics, dvh: seq<DeviceInput>, i: nat, zeidx: nat,
                             env: Option<int>, busParents: map<PciAddress, nat>)
    requires topo.Valid()
    modifies topo, statics
    ensures topo.Valid()
    ensures PassOf(topo, statics, zeidx + |dvh|) == DevicesPass(old(PassOf(topo, statics, zeidx)), dvh, |dvh|, i, env, busParents)
  {
    ghost var before := PassOf(topo, statics, zeidx);
    var z := zeidx;
    for j := 0 to |dvh|
      invariant z == zeidx + j
      invariant topo.Valid()
      invariant PassOf(topo, statics, z) == DevicesPass(before, dvh, j, i, env, busParents)
    {
      AttachNextDevice(topo, statics, before, dvh, j, i, z, env, busParents);
      z := z + 1;
    }
  }

  /** One turn of the device loop, as a step of `DevicesPass`. */
  method AttachNextDevice(topo: Topology, statics: Statics, ghost before: Pass, dvh: seq<DeviceInput>, j: nat,
                          i: nat, zeidx: nat, env: Option<int>, busParents: map<PciAddress, nat>)
    requires topo.Valid() && j < |dvh|
    requires PassOf(topo, statics, zeidx) == DevicesPass(before, dvh, j, i, env, busParents)
    modifies topo, statics
    ensures topo.Valid()
    ensures PassOf(topo, statics, zeidx + 1) == DevicesPass(before, dvh, j + 1, i, env, busParents)
  {
    DevicesPassNext(before, dvh, j, i, env, busParents);
    AttachDevice(topo, statics, dvh[j], i, j, zeidx, env, busParents);
  }

  lemma DevicesPassNext(st: Pass, devs: seq<DeviceInput>, j: nat, i: nat, env: Option<int>,
                        busParents: map<PciAddress, nat>)
    requires j < |devs|
    ensures DevicesPass(st, devs, j + 1, i, env, busParents)
         == DeviceStep(DevicesPass(st, devs, j, i, env, busParents), devs[j], i, j, env, busParents)
  {
  }

  lemma DriversPassNext(st: Pass, drivers: seq<DriverInput>, n: nat, env: Option<int>,
                        busParents: map<PciAddress, nat>)
    requires n < |drivers|
    ensures DriversPass(st, drivers, n + 1, env, busParents)
         == match Listed(drivers[n].devices)
            case None => DriversPass(st, drivers, n, env, busParents)
            case Some(devs) => DevicesPass(DriversPass(st, drivers, n, env, busParents), devs, |devs|, n, env, busParents)
  {
  }

  /** `hwloc_levelzero_discover`: `keepNone` is the OS device type filter
      being KEEP_NONE, `sysmanEnv` and `coreapiEnv` are `atoi` of
      `ZES_ENABLE_SYSMAN` and `HWLOC_L0_COREAPI_MEMORY` (`None` when unset),
      `sysmanEnvAfter` the former after the call. */
  method Discover(topo: Topology, statics: Statics, keepNone: bool, sysmanEnv: Option<int>,
                  coreapiEnv: Option<int>, platform: Platform, busParents: map<PciAddress, nat>)
    returns (sysmanEnvAfter: Option<int>)
    requires topo.Valid()
    modifies topo, statics
    ensures topo.Valid()
    ensures sysmanEnvAfter == if keepNone then sysmanEnv else SysmanMaybeMissing(sysmanEnv).1
    ensures var r := Discovered(old(topo.objs), old(statics.Selection()), old(statics.warned), keepNone,
                                platform, coreapiEnv, busParents);
      topo.objs == r.objs && statics.Selection() == r.selection && statics.warned == r.warned
    ensures Discovered(old(topo.objs), old(statics.Selection()), old(statics.warned), keepNone, platform, coreapiEnv,
                       busParents).zeidx
         == if keepNone || !platform.initOk || Listed(platform.drivers).None? then 0
            else ListedDevices(Listed(platform.drivers).value, |Listed(platform.drivers).value|)
  {
    sysmanEnvAfter := sysmanEnv;
    if keepNone {
      return;
    }
    var maybeMissing := SysmanMaybeMissing(sysmanEnv);
    sysmanEnvAfter := maybeMissing.1;
    if !platform.initOk {
      return;
    }
    var drivers := platform.drivers;
    if drivers.CountFailed? || drivers.count == 0 || drivers.items.Fail? {
      return;
    }
    var drh := drivers.items.value;
    ghost var st0 := PassOf(topo, statics, 0);
    var zeidx: nat := 0;
    for i := 0 to |drh|
      invariant topo.Valid()
      invariant PassOf(topo, statics, zeidx) == DriversPass(st0, drh, i, coreapiEnv, busParents)
      invariant zeidx == ListedDevices(drh, i)
    {
      zeidx := AttachDriver(topo, statics, st0, drh, i, zeidx, coreapiEnv, busParents);
    }
  }

  /** One turn of the driver loop, lines 372-494: the devices of driver `i`
      when it lists some, each consuming one `zeidx`. */
  method AttachDriver(topo: Topology, statics: Statics, ghost st0: Pass, drh: seq<DriverInput>, i: nat, zeidx: nat,
                      env: Option<int>, busParents: map<PciAddress, nat>)
    returns (next: nat)
    requires topo.Valid() && i < |drh|
    requires PassOf(topo, statics, zeidx) == DriversPass(st0, drh, i, env, busParents)
    requires zeidx == ListedDevices(drh, i)
    modifies topo, statics
    ensures topo.Valid()
    ensures PassOf(topo, statics, next) == DriversPass(st0, drh, i + 1, env, busParents)
    ensures next == ListedDevices(drh, i + 1)
  {
    DriversPassNext(st0, drh, i, env, busParents);
    next := zeidx;
    var devices := drh[i].devices;
    if !(devices.CountFailed? || devices.count == 0 || devices.items.Fail?) {
      var dvh := devices.items.value;
      AttachDriverDevices(topo, statics, dvh, i, zeidx, env, busParents);
      next := zeidx + |dvh|;
    }
  }
}
