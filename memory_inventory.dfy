/** Memory attributes of a device and its subdevices, from either of two
    sources: the Sysman memory modules (`hwloc__levelzero_memory_get_from_sysman`,
    which aggregates HBM and DDR totals on the root device) or the core API
    memory properties (`hwloc__levelzero_memory_get_from_coreapi`, one call per
    node). `hwloc__levelzero_memory_get` chooses between them with two
    function-level statics, modelled as fields of `Statics`. */
module MemoryInventory {
  import opened Options
  import opened LevelZeroApi
  import opened Text
  import opened TopologyTree

  const U64: nat := 0x1_0000_0000_0000_0000

  /** `unsigned long long` accumulation wraps modulo 2^64. */
  function Wrap64(x: nat): (r: nat)
    ensures r < U64
    ensures x < U64 ==> r == x
    ensures (x - r) % U64 == 0
  {
    x % U64
  }

  /** `x >> 10`: bytes to KiB. */
  function KiB(x: nat): (r: nat)
  {
    x / 1024
  }

  /** `"LevelZero%sSize"` */
  function SizeKey(kind: string): (r: string)
  {
    "LevelZero" + kind + "Size"
  }

  /** Two size keys are equal only for equal kind names. */
  lemma SizeKeyInjective(a: string, b: string)
    ensures SizeKey(a) == SizeKey(b) ==> a == b
  {
    if SizeKey(a) == SizeKey(b) {
      assert |a| == |b|;
      assert a == SizeKey(a)[9..9 + |a|];
      assert b == SizeKey(b)[9..9 + |b|];
    }
  }

  // ---------------------------------------------------------------------------
  // Sysman memory modules

  datatype MemKind = HBM | DDR | OtherMemory

  const DdrTypes: set<u32> := {
    ZES_MEM_TYPE_DDR, ZES_MEM_TYPE_DDR3, ZES_MEM_TYPE_DDR4, ZES_MEM_TYPE_DDR5,
    ZES_MEM_TYPE_LPDDR, ZES_MEM_TYPE_LPDDR3, ZES_MEM_TYPE_LPDDR4, ZES_MEM_TYPE_LPDDR5}

  /** HBM, one of the eight DDR/LPDDR generations, or anything else. */
  function KindOf(t: u32): (k: MemKind)
    ensures k == HBM <==> t == ZES_MEM_TYPE_HBM
    ensures k == DDR <==> t in DdrTypes
  {
    if t == ZES_MEM_TYPE_HBM then HBM
    else if ZES_MEM_TYPE_DDR <= t <= ZES_MEM_TYPE_LPDDR5 then DDR
    else OtherMemory
  }

  function KindName(k: MemKind): (r: string)
  {
    match k
    case HBM => "HBM"
    case DDR => "DDR"
    case OtherMemory => "Memory"
  }

  /** The size of a module whose properties were obtained: the reported
      physical size, or the memory-state size when the former is 0 and the
      state query succeeds. */
  function EffectiveSize(m: MemModule): (r: u64)
    requires m.props.Ok?
  {
    if m.props.value.physicalSize == 0 && m.stateSize.Ok? then m.stateSize.value
    else m.props.value.physicalSize
  }

  datatype Owner = RootOwned | SubOwned(index: nat) | Unattributed

  /** Which node a module belongs to, given `nSubs` subdevice nodes. */
  function OwnerOf(p: MemProps, nSubs: nat): (o: Owner)
    ensures o.SubOwned? <==> p.onSubdevice && p.subdeviceId < nSubs
    ensures o.SubOwned? ==> o.index == p.subdeviceId
    ensures o == RootOwned <==> !p.onSubdevice
  {
    if !p.onSubdevice then RootOwned
    else if p.subdeviceId >= nSubs || nSubs == 0 then Unattributed
    else SubOwned(p.subdeviceId)
  }

  /** The KiB a module adds to the running total of `kind`. */
  function ModuleKiB(m: MemModule, kind: MemKind): (r: nat)
  {
    if m.props.Ok? && KindOf(m.props.value.memType) == kind then KiB(EffectiveSize(m)) else 0
  }

  /** The exact (unbounded) sum over `mods` of the KiB of kind `kind`. */
  function KindTotal(mods: seq<MemModule>, kind: MemKind): (r: nat)
    decreases |mods|
  {
    if mods == [] then 0
    else KindTotal(mods[..|mods| - 1], kind) + ModuleKiB(mods[|mods| - 1], kind)
  }

  /** The record a module posts on subdevice node `k` (none, unless the module
      belongs to that subdevice and its size is nonzero). */
  function SubModuleInfo(m: MemModule, nSubs: nat, k: nat): (r: seq<Info>)
  {
    if m.props.Ok? && OwnerOf(m.props.value, nSubs) == SubOwned(k) && EffectiveSize(m) != 0
    then [(SizeKey(KindName(KindOf(m.props.value.memType))), Decimal(KiB(EffectiveSize(m))))]
    else []
  }

  /** All records posted on subdevice node `k`, in module order. */
  function SubMemInfos(mods: seq<MemModule>, nSubs: nat, k: nat): (r: seq<Info>)
    decreases |mods|
  {
    if mods == [] then []
    else SubMemInfos(mods[..|mods| - 1], nSubs, k) + SubModuleInfo(mods[|mods| - 1], nSubs, k)
  }

  function TotalInfo(key: string, total: nat): (r: seq<Info>)
  {
    if total != 0 then [(key, Decimal(total))] else []
  }

  /** The records written on the root once all modules were scanned: the
      64-bit HBM total, then the DDR total, each only when nonzero. */
  function RootTotalInfos(mods: seq<MemModule>): (r: seq<Info>)
  {
    TotalInfo("LevelZeroHBMSize", Wrap64(KindTotal(mods, HBM)))
      + TotalInfo("LevelZeroDDRSize", Wrap64(KindTotal(mods, DDR)))
  }

  /** The modules the scan visits: none unless both enumeration calls succeed
      with a nonzero count. */
  function SysmanModules(mem: Listing<MemModule>): (r: seq<MemModule>)
  {
    match Listed(mem)
    case None => []
    case Some(ms) => ms
  }

  /** `root` and `subs` are distinct handles of `objs`. */
  predicate DistinctHandles(objs: seq<Obj>, root: nat, subs: seq<nat>)
  {
    && root < |objs|
    && (forall k :: 0 <= k < |subs| ==> subs[k] < |objs| && subs[k] != root)
    && (forall k, l :: 0 <= k < l < |subs| ==> subs[k] != subs[l])
  }

  /** `after` is `before` with `rootExtra` appended to the root's infos,
      `subExtras[k]` to subdevice `k`'s, and every other object unchanged. */
  predicate MemoryApplied(before: seq<Obj>, after: seq<Obj>, root: nat, subs: seq<nat>,
                          rootExtra: seq<Info>, subExtras: seq<seq<Info>>)
    requires DistinctHandles(before, root, subs) && |subExtras| == |subs|
  {
    && |after| == |before|
    && after[root] == WithInfos(before[root], rootExtra)
    && (forall k :: 0 <= k < |subs| ==> after[subs[k]] == WithInfos(before[subs[k]], subExtras[k]))
    && (forall h :: 0 <= h < |before| && h != root && h !in subs ==> after[h] == before[h])
  }

  function SysmanSubInfoLists(mods: seq<MemModule>, nSubs: nat): (r: seq<seq<Info>>)
    ensures |r| == nSubs
  {
    seq(nSubs, k requires 0 <= k < nSubs => SubMemInfos(mods, nSubs, k))
  }

  /** `hwloc__levelzero_memory_get_from_sysman`: -1, with nothing added, when
      the module count cannot be queried; otherwise 0, each subdevice node
      having received its own modules' records as they were met and the root
      the HBM and DDR totals at the end. */
  method MemoryGetFromSysman(topo: Topology, root: nat, subs: seq<nat>, mem: Listing<MemModule>)
    returns (ret: int)
    requires DistinctHandles(topo.objs, root, subs)
    modifies topo
    ensures ret == (if mem.CountFailed? then -1 else 0)
    ensures ret == -1 ==> topo.objs == old(topo.objs)
    ensures MemoryApplied(old(topo.objs), topo.objs, root, subs,
                          RootTotalInfos(SysmanModules(mem)), SysmanSubInfoLists(SysmanModules(mem), |subs|))
  {
    if mem.CountFailed? {
      return -1;
    }
    ghost var objs0 := topo.objs;
    var n := |subs|;
    var totalHBMkB: nat := 0;
    var totalDDRkB: nat := 0;
    var mh: seq<MemModule> := [];
    if mem.count != 0 && mem.items.Ok? {
      mh := mem.items.value;
    }
    assert mh == SysmanModules(mem);
    for m := 0 to |mh|
      invariant totalHBMkB == Wrap64(KindTotal(mh[..m], HBM))
      invariant totalDDRkB == Wrap64(KindTotal(mh[..m], DDR))
      invariant |topo.objs| == |objs0|
      invariant topo.objs[root] == objs0[root]
      invariant SubsPosted(objs0, topo.objs, subs, mh[..m])
      invariant forall h :: 0 <= h < |objs0| && h != root && h !in subs ==> topo.objs[h] == objs0[h]
    {
      totalHBMkB, totalDDRkB := ScanNext(topo, root, subs, mh, m, totalHBMkB, totalDDRkB, objs0);
    }
    assert mh[..|mh|] == mh;
    AddRootTotals(topo, root, totalHBMkB, totalDDRkB);
    return 0;
  }

  /** Lines 223-233: the totals on the root, HBM first, each only when nonzero. */
  method AddRootTotals(topo: Topology, root: nat, totalHBMkB: nat, totalDDRkB: nat)
    requires root < |topo.objs|
    modifies topo
    ensures topo.objs == old(topo.objs)[root := WithInfos(old(topo.objs)[root],
                                                          TotalInfo("LevelZeroHBMSize", totalHBMkB)
                                                          + TotalInfo("LevelZeroDDRSize", totalDDRkB))]
  {
    ghost var objs0 := topo.objs;
    ghost var hbm := TotalInfo("LevelZeroHBMSize", totalHBMkB);
    ghost var ddr := TotalInfo("LevelZeroDDRSize", totalDDRkB);
    if totalHBMkB != 0 {
      topo.AddInfos(root, [("LevelZeroHBMSize", Decimal(totalHBMkB))]);
    } else {
      assert objs0[root] == WithInfos(objs0[root], hbm);
    }
    assert topo.objs == objs0[root := WithInfos(objs0[root], hbm)];
    if totalDDRkB != 0 {
      topo.AddInfos(root, [("LevelZeroDDRSize", Decimal(totalDDRkB))]);
    } else {
      assert topo.objs[root] == WithInfos(topo.objs[root], ddr);
    }
    WithInfosTwice(objs0[root], hbm, ddr);
  }

  lemma WithInfosTwice(o: Obj, a: seq<Info>, b: seq<Info>)
    ensures WithInfos(WithInfos(o, a), b) == WithInfos(o, a + b)
  {
    assert o.infos + a + b == o.infos + (a + b);
  }

  /** Turn `m` of the module scan, with the totals over the modules before it. */
  method ScanNext(topo: Topology, root: nat, subs: seq<nat>, mh: seq<MemModule>, m: nat,
                  totalHBMkB: nat, totalDDRkB: nat, ghost objs0: seq<Obj>)
    returns (hbm: nat, ddr: nat)
    requires DistinctHandles(objs0, root, subs) && |topo.objs| == |objs0| && m < |mh|
    requires SubsPosted(objs0, topo.objs, subs, mh[..m])
    requires totalHBMkB == Wrap64(KindTotal(mh[..m], HBM)) && totalDDRkB == Wrap64(KindTotal(mh[..m], DDR))
    modifies topo
    ensures hbm == Wrap64(KindTotal(mh[..m + 1], HBM)) && ddr == Wrap64(KindTotal(mh[..m + 1], DDR))
    ensures |topo.objs| == |objs0|
    ensures SubsPosted(objs0, topo.objs, subs, mh[..m + 1])
    ensures forall h :: 0 <= h < |objs0| && h !in subs ==> topo.objs[h] == old(topo.objs[h])
  {
    assert mh[..m + 1] == mh[..m] + [mh[m]];
    WrapAdd(KindTotal(mh[..m], HBM), ModuleKiB(mh[m], HBM));
    WrapAdd(KindTotal(mh[..m], DDR), ModuleKiB(mh[m], DDR));
    hbm, ddr := ScanModule(topo, root, subs, mh[m], totalHBMkB, totalDDRkB, objs0, mh[..m]);
  }

  /** One iteration of the module scan: the size (with the memory-state
      fallback), the owning node, the kind, the running totals and, for a
      module of an existing subdevice with nonzero size, its record. */
  method ScanModule(topo: Topology, root: nat, subs: seq<nat>, mod: MemModule,
                    totalHBMkB: nat, totalDDRkB: nat, ghost objs0: seq<Obj>, ghost done: seq<MemModule>)
    returns (hbm: nat, ddr: nat)
    requires DistinctHandles(objs0, root, subs) && |topo.objs| == |objs0|
    requires SubsPosted(objs0, topo.objs, subs, done)
    requires totalHBMkB < U64 && totalDDRkB < U64
    modifies topo
    ensures hbm == Wrap64(totalHBMkB + ModuleKiB(mod, HBM))
    ensures ddr == Wrap64(totalDDRkB + ModuleKiB(mod, DDR))
    ensures |topo.objs| == |objs0|
    ensures SubsPosted(objs0, topo.objs, subs, done + [mod])
    ensures forall h :: 0 <= h < |objs0| && h !in subs ==> topo.objs[h] == old(topo.objs[h])
  {
    hbm, ddr := totalHBMkB, totalDDRkB;
    var n := |subs|;
    if !mod.props.Ok? {
      NotPosted(objs0, topo.objs, subs, done, mod);
      return;
    }
    var mprop := mod.props.value;
    var size := mprop.physicalSize;
    if size == 0 && mod.stateSize.Ok? {
      size := mod.stateSize.value;
    }
    var osdev: Option<nat>;
    if mprop.onSubdevice {
      if mprop.subdeviceId >= n || n == 0 {
        osdev := None;
      } else {
        osdev := Some(subs[mprop.subdeviceId]);
      }
    } else {
      osdev := Some(root);
    }
    var kind := KindOf(mprop.memType);
    if kind == HBM {
      hbm := Wrap64(hbm + KiB(size));
    } else if kind == DDR {
      ddr := Wrap64(ddr + KiB(size));
    }
    if osdev.Some? && size != 0 && osdev.value != root {
      ghost var before := topo.objs;
      topo.AddInfos(osdev.value, [(SizeKey(KindName(kind)), Decimal(KiB(size)))]);
      PostedOnOwner(objs0, before, subs, done, mod, mprop.subdeviceId as nat);
    } else {
      NotPosted(objs0, topo.objs, subs, done, mod);
    }
  }

  /** Every subdevice node of `cur` carries, after its infos in `objs0`, the
      records the modules `mods` post on it. */
  predicate SubsPosted(objs0: seq<Obj>, cur: seq<Obj>, subs: seq<nat>, mods: seq<MemModule>)
    requires |cur| == |objs0| && forall k :: 0 <= k < |subs| ==> subs[k] < |objs0|
  {
    forall k :: 0 <= k < |subs| ==> cur[subs[k]] == WithInfos(objs0[subs[k]], SubMemInfos(mods, |subs|, k))
  }

  lemma PostedOnOwner(objs0: seq<Obj>, cur: seq<Obj>, subs: seq<nat>, mods: seq<MemModule>, mod: MemModule, s: nat)
    requires |cur| == |objs0|
    requires forall k :: 0 <= k < |subs| ==> subs[k] < |objs0|
    requires forall k, l :: 0 <= k < l < |subs| ==> subs[k] != subs[l]
    requires SubsPosted(objs0, cur, subs, mods)
    requires mod.props.Ok? && EffectiveSize(mod) != 0 && OwnerOf(mod.props.value, |subs|) == SubOwned(s)
    ensures SubsPosted(objs0, cur[subs[s] := WithInfos(cur[subs[s]], SubModuleInfo(mod, |subs|, s))], subs, mods + [mod])
  {
    assert (mods + [mod])[..|mods|] == mods;
    forall k | 0 <= k < |subs|
      ensures SubMemInfos(mods + [mod], |subs|, k) == SubMemInfos(mods, |subs|, k) + SubModuleInfo(mod, |subs|, k)
    {
    }
  }

  lemma NotPosted(objs0: seq<Obj>, cur: seq<Obj>, subs: seq<nat>, mods: seq<MemModule>, mod: MemModule)
    requires |cur| == |objs0| && forall k :: 0 <= k < |subs| ==> subs[k] < |objs0|
    requires SubsPosted(objs0, cur, subs, mods)
    requires forall k :: 0 <= k < |subs| ==> SubModuleInfo(mod, |subs|, k) == []
    ensures SubsPosted(objs0, cur, subs, mods + [mod])
  {
    assert (mods + [mod])[..|mods|] == mods;
    forall k | 0 <= k < |subs|
      ensures SubMemInfos(mods + [mod], |subs|, k) == SubMemInfos(mods, |subs|, k)
    {
    }
  }

  lemma WrapAdd(a: nat, b: nat)
    ensures Wrap64(Wrap64(a) + b) == Wrap64(a + b)
  {
  }

  // ---------------------------------------------------------------------------
  // Properties of the Sysman aggregation

  /** `a` and `b` report the same modules, except perhaps for which node each
      module says it belongs to. */
  predicate SameExceptOwner(a: seq<MemModule>, b: seq<MemModule>)
  {
    && |a| == |b|
    && forall i :: 0 <= i < |a| ==>
        && a[i].stateSize == b[i].stateSize
        && a[i].props.Ok? == b[i].props.Ok?
        && (a[i].props.Ok? ==>
              a[i].props.value.memType == b[i].props.value.memType
              && a[i].props.value.physicalSize == b[i].props.value.physicalSize)
  }

  /** A module counts toward the root totals whether it belongs to the root,
      to a subdevice, or to a subdevice that does not exist. */
  lemma {:induction false} TotalsIgnoreOwnership(a: seq<MemModule>, b: seq<MemModule>, kind: MemKind)
    requires SameExceptOwner(a, b)
    ensures KindTotal(a, kind) == KindTotal(b, kind)
    decreases |a|
  {
    if a != [] {
      var n := |a| - 1;
      assert SameExceptOwner(a[..n], b[..n]);
      TotalsIgnoreOwnership(a[..n], b[..n], kind);
      assert ModuleKiB(a[n], kind) == ModuleKiB(b[n], kind);
    }
  }

  lemma RootTotalsIgnoreOwnership(a: seq<MemModule>, b: seq<MemModule>)
    requires SameExceptOwner(a, b)
    ensures RootTotalInfos(a) == RootTotalInfos(b)
  {
    TotalsIgnoreOwnership(a, b, HBM);
    TotalsIgnoreOwnership(a, b, DDR);
  }

  /** The largest KiB count a 64-bit byte size can give. */
  const MaxModuleKiB: nat := 0x3F_FFFF_FFFF_FFFF

  lemma {:induction false} KindTotalBound(mods: seq<MemModule>, kind: MemKind)
    ensures KindTotal(mods, kind) <= |mods| * MaxModuleKiB
    decreases |mods|
  {
    if mods != [] {
      KindTotalBound(mods[..|mods| - 1], kind);
    }
  }

  /** With at most 1024 modules the 64-bit totals cannot wrap: the root's
      totals are the exact sums. */
  lemma TotalIsExactSum(mods: seq<MemModule>, kind: MemKind)
    requires |mods| <= 1024
    ensures Wrap64(KindTotal(mods, kind)) == KindTotal(mods, kind)
  {
    KindTotalBound(mods, kind);
  }

  /** Module `m` has its properties, belongs to subdevice `k`, has a nonzero
      size, and `x` is its `LevelZero<HBM|DDR|Memory>Size = size >> 10`. */
  predicate PostsOnSub(m: MemModule, nSubs: nat, k: nat, x: Info)
  {
    && m.props.Ok?
    && OwnerOf(m.props.value, nSubs) == SubOwned(k)
    && EffectiveSize(m) != 0
    && x == (SizeKey(KindName(KindOf(m.props.value.memType))), Decimal(KiB(EffectiveSize(m))))
  }

  /** A record sits on subdevice node `k` exactly when some module posts it
      there. Modules of the root or of an out-of-range subdevice never post
      one. */
  lemma {:induction false} SubMemInfosMember(mods: seq<MemModule>, nSubs: nat, k: nat, x: Info)
    ensures x in SubMemInfos(mods, nSubs, k) <==> exists i :: 0 <= i < |mods| && PostsOnSub(mods[i], nSubs, k, x)
    decreases |mods|
  {
    if mods != [] {
      var n := |mods| - 1;
      var init := mods[..n];
      SubMemInfosMember(init, nSubs, k, x);
      assert SubMemInfos(mods, nSubs, k) == SubMemInfos(init, nSubs, k) + SubModuleInfo(mods[n], nSubs, k);
      if x in SubMemInfos(init, nSubs, k) {
        var i :| 0 <= i < n && PostsOnSub(init[i], nSubs, k, x);
        assert init[i] == mods[i];
      } else if x in SubModuleInfo(mods[n], nSubs, k) {
        assert PostsOnSub(mods[n], nSubs, k, x);
      } else {
        forall i | 0 <= i < |mods|
          ensures !PostsOnSub(mods[i], nSubs, k, x)
        {
          if i < n {
            assert init[i] == mods[i];
          }
        }
      }
    }
  }

  /** Root-owned and unattributed modules leave every subdevice node alone. */
  lemma {:induction false} NoSubInfoWithoutOwnedModule(mods: seq<MemModule>, nSubs: nat, k: nat)
    requires forall i :: 0 <= i < |mods| && mods[i].props.Ok? ==> OwnerOf(mods[i].props.value, nSubs) != SubOwned(k)
    ensures SubMemInfos(mods, nSubs, k) == []
    decreases |mods|
  {
    if mods != [] {
      NoSubInfoWithoutOwnedModule(mods[..|mods| - 1], nSubs, k);
    }
  }

  /** A module reporting size 0, appended after any modules `mods`: when its
      memory-state query succeeds, the state size is what it adds to the
      total of its kind and what it posts on its subdevice; when that query
      fails too, it adds nothing and posts nothing. */
  lemma StateSizeFallback(mods: seq<MemModule>, m: MemModule, nSubs: nat, k: nat, kind: MemKind)
    requires m.props.Ok? && m.props.value.physicalSize == 0
    ensures m.stateSize.Ok? ==>
      KindTotal(mods + [m], kind)
        == KindTotal(mods, kind) + (if KindOf(m.props.value.memType) == kind then KiB(m.stateSize.value) else 0)
    ensures m.stateSize.Ok? && OwnerOf(m.props.value, nSubs) == SubOwned(k) && m.stateSize.value != 0 ==>
      SubModuleInfo(m, nSubs, k)
        == [(SizeKey(KindName(KindOf(m.props.value.memType))), Decimal(KiB(m.stateSize.value)))]
    ensures m.stateSize.Fail? ==>
      KindTotal(mods + [m], kind) == KindTotal(mods, kind) && SubModuleInfo(m, nSubs, k) == []
  {
    assert (mods + [m])[..|mods|] == mods;
  }

  // ---------------------------------------------------------------------------
  // Core API memory properties

  /** A module is reported unless its size is 0, or DDR is ignored and its
      name is exactly "DDR". */
  predicate KeptCoreMemory(m: CoreMemory, ignoreDdr: bool)
  {
    m.totalSize != 0 && !(ignoreDdr && m.name == "DDR")
  }

  function CoreMemoryName(m: CoreMemory): (r: string)
  {
    if m.name == "" then "Memory" else m.name
  }

  function CoreMemoryInfo(m: CoreMemory): (r: Info)
  {
    (SizeKey(CoreMemoryName(m)), Decimal(KiB(m.totalSize)))
  }

  function CoreMemoryEntries(ms: seq<CoreMemory>, ignoreDdr: bool): (r: seq<Info>)
    ensures |r| <= |ms|
  {
    if ms == [] then []
    else
      (if KeptCoreMemory(ms[0], ignoreDdr) then [CoreMemoryInfo(ms[0])] else [])
        + CoreMemoryEntries(ms[1..], ignoreDdr)
  }

  /** One memory gives its own record when it is kept, and none otherwise. */
  lemma CoreMemoryEntriesOne(m: CoreMemory, ignoreDdr: bool)
    ensures CoreMemoryEntries([m], ignoreDdr) == if KeptCoreMemory(m, ignoreDdr) then [CoreMemoryInfo(m)] else []
  {
    assert [m][1..] == [];
  }

  /** The records of a list are those of its first part followed by those of
      the rest: one record per kept memory, in list order. */
  lemma {:induction false} CoreMemoryEntriesAppend(a: seq<CoreMemory>, b: seq<CoreMemory>, ignoreDdr: bool)
    ensures CoreMemoryEntries(a + b, ignoreDdr) == CoreMemoryEntries(a, ignoreDdr) + CoreMemoryEntries(b, ignoreDdr)
    decreases |a|
  {
    if a == [] {
      assert a + b == b;
    } else {
      CoreMemoryEntriesAppend(a[1..], b, ignoreDdr);
      CoreMemoryEntriesCons(a, b, ignoreDdr);
    }
  }

  /** The step of `CoreMemoryEntriesAppend`: from the rest of `a` to `a`. */
  lemma CoreMemoryEntriesCons(a: seq<CoreMemory>, b: seq<CoreMemory>, ignoreDdr: bool)
    requires a != []
    requires CoreMemoryEntries(a[1..] + b, ignoreDdr) == CoreMemoryEntries(a[1..], ignoreDdr) + CoreMemoryEntries(b, ignoreDdr)
    ensures CoreMemoryEntries(a + b, ignoreDdr) == CoreMemoryEntries(a, ignoreDdr) + CoreMemoryEntries(b, ignoreDdr)
  {
    assert (a + b)[0] == a[0];
    assert (a + b)[1..] == a[1..] + b;
    CoreMemoryEntriesFirst(a + b, ignoreDdr);
    CoreMemoryEntriesFirst(a, ignoreDdr);
    var head := if KeptCoreMemory(a[0], ignoreDdr) then [CoreMemoryInfo(a[0])] else [];
    ConcatAssoc(head, CoreMemoryEntries(a[1..], ignoreDdr), CoreMemoryEntries(b, ignoreDdr));
  }

  lemma CoreMemoryEntriesFirst(ms: seq<CoreMemory>, ignoreDdr: bool)
    requires ms != []
    ensures CoreMemoryEntries(ms, ignoreDdr)
         == (if KeptCoreMemory(ms[0], ignoreDdr) then [CoreMemoryInfo(ms[0])] else []) + CoreMemoryEntries(ms[1..], ignoreDdr)
  {
  }

  lemma ConcatAssoc(x: seq<Info>, y: seq<Info>, z: seq<Info>)
    ensures x + (y + z) == (x + y) + z
  {
  }

  /** `hwloc__levelzero_memory_get_from_coreapi`: nothing when the count query
      fails or reports 0 (or the list cannot be read), otherwise one record per
      kept module in list order. */
  function CoreApiMemoryInfos(mem: Listing<CoreMemory>, ignoreDdr: bool): (r: seq<Info>)
    ensures Listed(mem).None? ==> r == []
  {
    match Listed(mem)
    case None => []
    case Some(ms) => CoreMemoryEntries(ms, ignoreDdr)
  }

  /** A record is produced exactly for the kept modules: `LevelZero<name>Size`
      ("Memory" for an empty name) with value `totalSize >> 10`. */
  lemma {:induction false} CoreMemoryEntriesMember(ms: seq<CoreMemory>, ignoreDdr: bool, x: Info)
    ensures x in CoreMemoryEntries(ms, ignoreDdr) <==>
      exists i :: 0 <= i < |ms| && KeptCoreMemory(ms[i], ignoreDdr) && x == CoreMemoryInfo(ms[i])
    decreases |ms|
  {
    if ms != [] {
      CoreMemoryEntriesMember(ms[1..], ignoreDdr, x);
      assert forall i :: 1 <= i < |ms| ==> ms[1..][i - 1] == ms[i];
      if x in CoreMemoryEntries(ms[1..], ignoreDdr) {
        var i :| 0 <= i < |ms[1..]| && KeptCoreMemory(ms[1..][i], ignoreDdr) && x == CoreMemoryInfo(ms[1..][i]);
        assert ms[i + 1] == ms[1..][i];
      }
    }
  }

  /** When DDR is ignored no record is keyed `LevelZeroDDRSize`. */
  lemma {:induction false} NoDdrRecordWhenIgnored(ms: seq<CoreMemory>, x: Info)
    requires x in CoreMemoryEntries(ms, true)
    ensures x.0 != "LevelZeroDDRSize"
  {
    CoreMemoryEntriesMember(ms, true, x);
    var i :| 0 <= i < |ms| && KeptCoreMemory(ms[i], true) && x == CoreMemoryInfo(ms[i]);
    assert SizeKey("DDR") == "LevelZeroDDRSize";
    SizeKeyInjective(CoreMemoryName(ms[i]), "DDR");
  }

  // ---------------------------------------------------------------------------
  // Source selection

  /** Which source a device's memory comes from; `ignoreDdr` drops modules
      named "DDR" from the core API results. */
  datatype MemoryPlan = ViaSysman | ViaCoreApi(ignoreDdr: bool)

  /** The statics of `hwloc__levelzero_memory_get`: `memoryFromCoreapi` is 1
      (or any positive value) for the core API, 2 to also keep DDR on
      integrated devices, 0 or below for Sysman, -1 for "Sysman if it works";
      `first` says whether the override is still to be read. */
  datatype SourceSelection = SourceSelection(memoryFromCoreapi: int, first: bool)

  const InitialSelection := SourceSelection(-1, true)

  /** The source a settled mode uses. */
  function Decide(mode: int, integrated: bool): (plan: MemoryPlan)
    ensures plan.ViaCoreApi? <==> mode > 0
    ensures plan.ViaCoreApi? ==> (plan.ignoreDdr <==> integrated && mode != 2)
  {
    if mode > 0 then ViaCoreApi(mode != 2 && integrated) else ViaSysman
  }

  /** One call's decision: `env` is the override read from the environment
      (its `atoi` value, `None` when unset), `sysmanOk` whether a Sysman
      attempt would succeed (its module count query succeeds). Returns the
      plan followed and the new statics. */
  function SelectSource(s: SourceSelection, env: Option<int>, sysmanOk: bool, integrated: bool)
    : (r: (MemoryPlan, SourceSelection))
    ensures s.first ==> r.1.memoryFromCoreapi != -1
    ensures r.0 == Decide(r.1.memoryFromCoreapi, integrated)
    ensures !s.first ==> r.1 == s
  {
    if s.first then
      var mode := if env.Some? then env.value else s.memoryFromCoreapi;
      if mode == -1 then
        if sysmanOk then (ViaSysman, SourceSelection(0, true))
        else (ViaCoreApi(integrated), SourceSelection(1, false))
      else (Decide(mode, integrated), SourceSelection(mode, false))
    else (Decide(s.memoryFromCoreapi, integrated), s)
  }

  /** What one device contributes to the selection. */
  datatype Probe = Probe(sysmanOk: bool, integrated: bool)

  /** The plans of successive calls, threading the statics. */
  function Plans(s: SourceSelection, env: Option<int>, probes: seq<Probe>): (plans: seq<MemoryPlan>)
    ensures |plans| == |probes|
    decreases |probes|
  {
    if probes == [] then []
    else
      var step := SelectSource(s, env, probes[0].sysmanOk, probes[0].integrated);
      [step.0] + Plans(step.1, env, probes[1..])
  }

  lemma {:induction false} PlansUnfold(s: SourceSelection, env: Option<int>, probes: seq<Probe>)
    requires probes != []
    ensures var step := SelectSource(s, env, probes[0].sysmanOk, probes[0].integrated);
      && Plans(s, env, probes)[0] == step.0
      && forall t :: 1 <= t < |probes| ==> Plans(s, env, probes)[t] == Plans(step.1, env, probes[1..])[t - 1]
  {
    var step := SelectSource(s, env, probes[0].sysmanOk, probes[0].integrated);
    assert Plans(s, env, probes) == [step.0] + Plans(step.1, env, probes[1..]);
  }

  lemma {:induction false} SettledStays(s: SourceSelection, env: Option<int>, probes: seq<Probe>)
    requires !s.first
    ensures forall t :: 0 <= t < |probes| ==>
      Plans(s, env, probes)[t] == Decide(s.memoryFromCoreapi, probes[t].integrated)
    decreases |probes|
  {
    if probes != [] {
      SettledStays(s, env, probes[1..]);
      PlansUnfold(s, env, probes);
    }
  }

  /** Once Sysman succeeded (mode 0, override still unread), Sysman stays. */
  lemma SysmanStays(probes: seq<Probe>)
    ensures forall t :: 0 <= t < |probes| ==> Plans(SourceSelection(0, true), None, probes)[t] == ViaSysman
  {
    if probes != [] {
      SettledStays(SourceSelection(0, false), None, probes[1..]);
      PlansUnfold(SourceSelection(0, true), None, probes);
    }
  }

  /** Without an override the first device tries Sysman; if that works every
      later device uses Sysman, otherwise that device and every later one use
      the core API, dropping DDR exactly on integrated devices. */
  lemma StickyWithoutOverride(probes: seq<Probe>)
    requires |probes| > 0
    ensures var plans := Plans(InitialSelection, None, probes);
      && (probes[0].sysmanOk ==> forall t :: 0 <= t < |plans| ==> plans[t] == ViaSysman)
      && (!probes[0].sysmanOk ==> forall t :: 0 <= t < |plans| ==> plans[t] == ViaCoreApi(probes[t].integrated))
  {
    var plans := Plans(InitialSelection, None, probes);
    if probes[0].sysmanOk {
      SysmanStays(probes[1..]);
    } else {
      SettledStays(SourceSelection(1, false), None, probes[1..]);
    }
    PlansUnfold(InitialSelection, None, probes);
  }

  /** An override other than -1 fixes the source for every call. */
  lemma {:induction false} OverrideFixesSource(s: SourceSelection, m: int, probes: seq<Probe>)
    requires m != -1 && (s.first || s.memoryFromCoreapi == m)
    ensures forall t :: 0 <= t < |probes| ==> Plans(s, Some(m), probes)[t] == Decide(m, probes[t].integrated)
    decreases |probes|
  {
    if probes != [] {
      var step := SelectSource(s, Some(m), probes[0].sysmanOk, probes[0].integrated);
      assert step.1 == SourceSelection(m, false) || step.1 == s;
      OverrideFixesSource(step.1, m, probes[1..]);
      PlansUnfold(s, Some(m), probes);
    }
  }

  /** `first` is not cleared when the first Sysman attempt succeeds, so an
      explicit override of -1 is read again on the next call and a later
      Sysman failure switches that device to the core API; without the
      override the choice sticks. */
  lemma ExplicitAutoIsReread()
    ensures Plans(InitialSelection, Some(-1), [Probe(true, false), Probe(false, false)])
      == [ViaSysman, ViaCoreApi(false)]
    ensures Plans(InitialSelection, None, [Probe(true, false), Probe(false, false)])
      == [ViaSysman, ViaSysman]
  {
    var ps := [Probe(true, false), Probe(false, false)];
    assert ps[1..] == [Probe(false, false)];
    assert ps[1..][1..] == [];
  }

  // ---------------------------------------------------------------------------
  // hwloc__levelzero_memory_get

  /** What a plan appends on the root device. */
  function RootMemoryInfos(plan: MemoryPlan, sysmanMem: Listing<MemModule>, rootCoreMem: Listing<CoreMemory>)
    : (r: seq<Info>)
  {
    match plan
    case ViaSysman => RootTotalInfos(SysmanModules(sysmanMem))
    case ViaCoreApi(ignoreDdr) => CoreApiMemoryInfos(rootCoreMem, ignoreDdr)
  }

  /** What a plan appends on each subdevice node. */
  function SubMemoryInfoLists(plan: MemoryPlan, sysmanMem: Listing<MemModule>, subCoreMem: seq<Listing<CoreMemory>>)
    : (r: seq<seq<Info>>)
    ensures |r| == |subCoreMem|
  {
    match plan
    case ViaSysman => SysmanSubInfoLists(SysmanModules(sysmanMem), |subCoreMem|)
    case ViaCoreApi(ignoreDdr) => CoreApiSubInfoLists(subCoreMem, ignoreDdr)
  }

  function CoreApiSubInfoLists(subCoreMem: seq<Listing<CoreMemory>>, ignoreDdr: bool): (r: seq<seq<Info>>)
    ensures |r| == |subCoreMem|
  {
    seq(|subCoreMem|, k requires 0 <= k < |subCoreMem| => CoreApiMemoryInfos(subCoreMem[k], ignoreDdr))
  }

  /** The core API branch of `hwloc__levelzero_memory_get`: one
      `hwloc__levelzero_memory_get_from_coreapi` call on the root device, then
      one on each subdevice node in order. */
  method MemoryGetFromCoreapiAll(topo: Topology, root: nat, subs: seq<nat>, rootCoreMem: Listing<CoreMemory>,
                                 subCoreMem: seq<Listing<CoreMemory>>, ignoreDdr: bool)
    requires DistinctHandles(topo.objs, root, subs) && |subCoreMem| == |subs|
    modifies topo
    ensures MemoryApplied(old(topo.objs), topo.objs, root, subs,
                          CoreApiMemoryInfos(rootCoreMem, ignoreDdr), CoreApiSubInfoLists(subCoreMem, ignoreDdr))
  {
    ghost var objs0 := topo.objs;
    topo.AddInfos(root, CoreApiMemoryInfos(rootCoreMem, ignoreDdr));
    var k := 0;
    while k < |subs|
      invariant 0 <= k <= |subs|
      invariant |topo.objs| == |objs0|
      invariant topo.objs[root] == WithInfos(objs0[root], CoreApiMemoryInfos(rootCoreMem, ignoreDdr))
      invariant forall l :: 0 <= l < k ==>
        topo.objs[subs[l]] == WithInfos(objs0[subs[l]], CoreApiMemoryInfos(subCoreMem[l], ignoreDdr))
      invariant forall l :: k <= l < |subs| ==> topo.objs[subs[l]] == objs0[subs[l]]
      invariant forall h :: 0 <= h < |objs0| && h != root && h !in subs ==> topo.objs[h] == objs0[h]
    {
      topo.AddInfos(subs[k], CoreApiMemoryInfos(subCoreMem[k], ignoreDdr));
      k := k + 1;
    }
  }

  /** The process-wide statics of the backend: `memoryFromCoreapi` and
      `first` of `hwloc__levelzero_memory_get`, `warned` of
      `hwloc__levelzero_properties_get`. */
  class Statics {
    var memoryFromCoreapi: int
    var first: bool
    var warned: bool

    /** Their values at program start. */
    constructor ()
      ensures memoryFromCoreapi == -1 && first && !warned
    {
      memoryFromCoreapi := -1;
      first := true;
      warned := false;
    }

    function Selection(): (r: SourceSelection)
      reads this`memoryFromCoreapi, this`first
    {
      SourceSelection(memoryFromCoreapi, first)
    }

    /** `hwloc__levelzero_memory_get` for one device: `env` is the value of
        `HWLOC_L0_COREAPI_MEMORY`, `subs` the subdevice nodes and
        `subCoreMem[k]` the core API memory answer of subdevice `k`. The
        statics move as `SelectSource` says, and the nodes receive what the
        chosen plan appends. */
    method MemoryGet(topo: Topology, root: nat, subs: seq<nat>, integrated: bool,
                     sysmanMem: Listing<MemModule>, rootCoreMem: Listing<CoreMemory>,
                     subCoreMem: seq<Listing<CoreMemory>>, env: Option<int>)
      requires DistinctHandles(topo.objs, root, subs) && |subCoreMem| == |subs|
      modifies this, topo
      ensures warned == old(warned)
      ensures var step := SelectSource(old(Selection()), env, !sysmanMem.CountFailed?, integrated);
        && Selection() == step.1
        && MemoryApplied(old(topo.objs), topo.objs, root, subs,
                         RootMemoryInfos(step.0, sysmanMem, rootCoreMem),
                         SubMemoryInfoLists(step.0, sysmanMem, subCoreMem))
    {
      ghost var objs0 := topo.objs;
      if first {
        if env.Some? {
          memoryFromCoreapi := env.value;
        }
        if memoryFromCoreapi == -1 {
          var ret := MemoryGetFromSysman(topo, root, subs, sysmanMem);
          if ret == 0 {
            // Sysman worked: disable the core API for next time.
            memoryFromCoreapi := 0;
            return;
          }
          memoryFromCoreapi := 1;
        }
        first := false;
      }
      if memoryFromCoreapi > 0 {
        var ignoreDdr := memoryFromCoreapi != 2 && integrated;
        MemoryGetFromCoreapiAll(topo, root, subs, rootCoreMem, subCoreMem, ignoreDdr);
      } else {
        var ignored := MemoryGetFromSysman(topo, root, subs, sysmanMem);
      }
    }
  }
}
