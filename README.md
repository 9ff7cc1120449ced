# hwloc Level Zero backend, modelled in Dafny

This project models the discovery core of hwloc's oneAPI Level Zero backend
(`hwloc/topology-levelzero.c`, lines 17-498) and proves properties of it. In
one pass the backend walks every Level Zero driver and every device of each
driver. For each device it creates an OS device node `ze<i>` and one node
`ze<i>.<k>` per subdevice. It fills these nodes with info attributes: type,
shape counters, identity strings, command-queue groups and memory sizes.
Finally it inserts the device node below the PCI device it sits on, or below
the topology root, and the subdevice nodes below the device node.

Modules:

- `Options` defines `Option`.
- `LevelZeroApi` holds the vendor answers as input values. `Query<T>` is
  `Ok(value)` or `Fail`. `Listing<T>` is the "query the count, allocate,
  query the list" idiom. The enumeration constants come from the Level Zero
  headers.
- `Text` covers `%u`, `%llu`, `%lx` and `strcasecmp` equality, with parsers
  that invert the printers.
- `TopologyTree` is the part of the hwloc topology the backend touches. The
  class `Topology` holds an arena `objs: seq<Obj>` in which a handle is an
  index and handle 0 is the root. Its methods allocate a node, append info
  records and record a parent.
- `DeviceAttributes` models `hwloc__levelzero_properties_get` and
  `hwloc__levelzero_cqprops_get`. Both only append records, so they are
  functions that return the records.
- `MemoryInventory` models:
  - the Sysman module scan, as an imperative loop over the topology with
    64-bit wrapping totals;
  - the core-API memory lists;
  - the process-wide statics of `hwloc__levelzero_memory_get`, as the class
    `Statics`, whose method `MemoryGet` is proved against the function
    `SelectSource`.
- `Discovery` models `hwloc_levelzero_discover`. `Discovered` is a left fold
  over drivers and devices, and its step `DeviceStep` appends the block of
  nodes that one device creates. The imperative `Discover` (driver loop),
  `AttachDriverDevices` (device loop), `CreateSubdevices` (subdevice loop)
  and `InsertBlock` (insertion loop) are proved to leave the topology and
  the statics exactly as `Discovered` says. The properties of the node
  blocks are proved on `DeviceStep`.

Environment variables are parameters holding their `atoi` value, `None`
when unset. Every vendor call is an input. The `putenv` of
`ZES_ENABLE_SYSMAN` is the value `Discover` returns.

Behaviour the model keeps from the code:

- Root memory totals are `unsigned long long` sums and wrap modulo 2^64.
  `TotalIsExactSum` shows they are the exact sum for up to 1024 modules.
- The model departs from the code only at line 451: subdevice node `k` is
  described from `subh[k]`; see "Findings".

## Model

| member | source | states |
|---|---|---|
| LevelZeroApi.Listed | hwloc/topology-levelzero.c:141-153 | A two-phase enumeration delivers a list exactly when the count query succeeds with a nonzero count and the list query succeeds. |
| Text.DecimalRoundTrip | hwloc/topology-levelzero.c:48-55 | The `%u`/`%llu` rendering of any number parses back to that number. |
| Text.HexRoundTrip | hwloc/topology-levelzero.c:122 | The `%lx` rendering of any number parses back to that number. |
| Text.DecimalInjective | hwloc/topology-levelzero.c:413 | Two numbers have the same decimal rendering if and only if they are equal. |
| Text.DecimalZero | hwloc/topology-levelzero.c:48 | Zero is rendered as "0", never as an empty string. |
| Text.CaseEqualIsLowerEqual | hwloc/topology-levelzero.c:76-85 | `strcasecmp` equality holds exactly when both strings are equal after ASCII lower-casing. |
| Text.UnknownMeansLowerUnknown | hwloc/topology-levelzero.c:75-85 | A string is the identity sentinel exactly when it lower-cases to "unknown", so both "Unknown" and "unknown" qualify. |
| TopologyTree.Topology.AllocOsDev | hwloc/topology-levelzero.c:412-418 | A new node is appended at the next handle with the given name, subtype "LevelZero", a first info `Backend=LevelZero` and no parent; existing nodes are untouched. |
| TopologyTree.Topology.AddInfos | hwloc/topology-levelzero.c:418-423 | The records are appended in order to node `h`; every other node is unchanged. |
| TopologyTree.Topology.InsertByParent | hwloc/topology-levelzero.c:482-486 | Node `h` records `parent` as its parent; nothing else changes. |
| DeviceAttributes.DeviceTypeName | hwloc/topology-levelzero.c:36-46 | The type name is one of GPU, CPU, FPGA, MCA, VPU or Unknown, and it is "Unknown" exactly when the vendor value is outside the five known types. |
| DeviceAttributes.PropertiesGet | hwloc/topology-levelzero.c:17-97 | The device is integrated exactly when the core query succeeded with the integrated flag. The one-shot `warned` flag is set exactly when it was already set or a non-subdevice handle had its Sysman query fail. |
| DeviceAttributes.CountersAlwaysDecimal | hwloc/topology-levelzero.c:47-55 | After a successful core query the first five records are the type followed by the four shape counters in source order, each counter reading back as the reported value, zero included. |
| DeviceAttributes.CoreFailureAddsNoCoreInfo | hwloc/topology-levelzero.c:28-65 | A failed core query adds none of the type or counter keys and leaves the device "not integrated". |
| DeviceAttributes.SubdeviceGetsNoIdentity | hwloc/topology-levelzero.c:57-69 | A handle flagged as a subdevice gets exactly the five core records and no identity string, and the warning flag is left alone. |
| DeviceAttributes.IdentityAttribute | hwloc/topology-levelzero.c:67-85 | Identity record `f` with value `v` is present if and only if the handle is not a subdevice, Sysman succeeded, `v` is the reported string and `v` is not case-insensitively "unknown". |
| DeviceAttributes.PropertiesGetLayout | hwloc/topology-levelzero.c:47-85 | After a successful core query the records are the five core records and then identity records. After a failed one there are only identity records. Identity records come in the order vendor, model, brand, serial number, board number, each key at most once. |
| DeviceAttributes.IdentityInfosOrdered | hwloc/topology-levelzero.c:76-85 | The identity records carry identity keys in the order of the five fields, without repeats. |
| DeviceAttributes.IdentityInfosMember | hwloc/topology-levelzero.c:76-85 | Among the five identity records, `(key f, v)` occurs exactly when `v` is the reported field `f` and is not the sentinel. |
| DeviceAttributes.WarnedIsOneShot | hwloc/topology-levelzero.c:86-94 | Once set the warning flag stays set, and only a Sysman failure on a non-subdevice handle sets it. |
| DeviceAttributes.CqPropsGet | hwloc/topology-levelzero.c:99-128 | Nothing is added unless both enumeration calls succeed with a nonzero count; otherwise there is one record more than there are groups. |
| DeviceAttributes.CqGroupsReadBack | hwloc/topology-levelzero.c:117-123 | The first record reads back as the group count, and record `k+1` reads back as group `k`'s index, queue count and flags. |
| DeviceAttributes.CqGroupKeysDistinct | hwloc/topology-levelzero.c:119-123 | The per-group keys `LevelZeroCQGroup<k>` are pairwise distinct. |
| DeviceAttributes.CqGroupKeyRoundTrip | hwloc/topology-levelzero.c:121 | `LevelZeroCQGroup%u` parses back to its index. |
| DeviceAttributes.CqGroupValueRoundTrip | hwloc/topology-levelzero.c:122 | `%u*0x%lx` parses back to the group's queue count and flags. |
| MemoryInventory.Wrap64 | hwloc/topology-levelzero.c:138-139 | The running totals are the exact value modulo 2^64: below 2^64, congruent to the exact sum, and equal to it while it fits. |
| MemoryInventory.SizeKeyInjective | hwloc/topology-levelzero.c:213 | `LevelZero%sSize` keys are equal only for equal kind names. |
| MemoryInventory.KindOf | hwloc/topology-levelzero.c:185-203 | A module is HBM exactly for the HBM type and DDR exactly for the eight DDR/LPDDR types. |
| MemoryInventory.OwnerOf | hwloc/topology-levelzero.c:174-184 | A module belongs to subdevice node `id` exactly when it is on a subdevice and `id` is below the node count. It belongs to the root exactly when it is not on a subdevice. |
| MemoryInventory.MemoryGetFromSysman | hwloc/topology-levelzero.c:130-236 | Returns -1 with the topology untouched when the module count cannot be queried, otherwise 0. Each subdevice node gets the records of its own modules in module order, the root gets the HBM then DDR totals when nonzero, and no other node changes. |
| MemoryInventory.ScanNext | hwloc/topology-levelzero.c:156-218 | One turn of the module loop extends both 64-bit totals and the per-subdevice records from the modules before it to one module more, touching no node other than subdevice nodes. |
| MemoryInventory.ScanModule | hwloc/topology-levelzero.c:157-217 | One module uses its memory-state size when its size is 0 and adds its KiB to the total of its kind modulo 2^64. Its record goes on its subdevice node only when it owns one and the size is nonzero. |
| MemoryInventory.AddRootTotals | hwloc/topology-levelzero.c:223-233 | The root gets `LevelZeroHBMSize` then `LevelZeroDDRSize`, each only when nonzero; nothing else changes. |
| MemoryInventory.TotalsIgnoreOwnership | hwloc/topology-levelzero.c:174-203 | The total of a kind does not depend on which node a module says it belongs to, including subdevices that do not exist. |
| MemoryInventory.RootTotalsIgnoreOwnership | hwloc/topology-levelzero.c:174-233 | The root records are the same for module lists that differ only in ownership. |
| MemoryInventory.KindTotalBound | hwloc/topology-levelzero.c:188-199 | The exact total of a kind is at most the module count times the largest KiB count a 64-bit size gives. |
| MemoryInventory.TotalIsExactSum | hwloc/topology-levelzero.c:138-199 | With at most 1024 modules the 64-bit totals never wrap, so they equal the exact sum. |
| MemoryInventory.SubMemInfosMember | hwloc/topology-levelzero.c:164-216 | A record is on subdevice node `k` exactly when some module with properties belongs to subdevice `k`, has nonzero effective size, and that record is its `LevelZero<kind>Size = size >> 10`. |
| MemoryInventory.NoSubInfoWithoutOwnedModule | hwloc/topology-levelzero.c:174-216 | Modules of the root, or of an out-of-range subdevice, never post on a subdevice node. |
| MemoryInventory.StateSizeFallback | hwloc/topology-levelzero.c:164-216 | A module reporting size 0, appended after any modules: when its memory-state query succeeds, the total of its kind grows by the state size in KiB, and its subdevice node gets that value as its record. When the state query fails too, it adds nothing to any total and posts nothing. |
| MemoryInventory.CoreMemoryEntries | hwloc/topology-levelzero.c:259-276 | There is at most one record per reported memory. |
| MemoryInventory.CoreMemoryEntriesOne | hwloc/topology-levelzero.c:267-275 | A single memory gives its own record when it is kept and no record otherwise. |
| MemoryInventory.CoreMemoryEntriesAppend | hwloc/topology-levelzero.c:259-276 | The records of two lists, one after the other, are the records of the first list followed by those of the second. With `CoreMemoryEntriesOne`, there is one record per kept memory, in list order. |
| MemoryInventory.CoreApiMemoryInfos | hwloc/topology-levelzero.c:238-280 | Nothing is added unless both enumeration calls succeed with a nonzero count. |
| MemoryInventory.CoreMemoryEntriesMember | hwloc/topology-levelzero.c:259-276 | A record is produced exactly for each memory with nonzero size that is not an ignored "DDR". It is keyed by the memory's name ("Memory" when empty) and its value is `totalSize >> 10`. |
| MemoryInventory.NoDdrRecordWhenIgnored | hwloc/topology-levelzero.c:269-273 | When DDR is ignored no record is keyed `LevelZeroDDRSize`. |
| MemoryInventory.Decide | hwloc/topology-levelzero.c:312-319 | A settled mode uses the core API exactly when it is positive, dropping DDR exactly on integrated devices unless the mode is 2. |
| MemoryInventory.SelectSource | hwloc/topology-levelzero.c:287-318 | One call's plan is what its new statics decide. A first call never leaves the mode at -1, and a later call does not change the statics. |
| MemoryInventory.Plans | hwloc/topology-levelzero.c:283-324 | Successive calls threading the statics yield one plan per device. |
| MemoryInventory.SettledStays | hwloc/topology-levelzero.c:309-318 | Once `first` is cleared, every later call follows the stored mode. |
| MemoryInventory.SysmanStays | hwloc/topology-levelzero.c:296-302 | After a successful Sysman attempt, with no override, every later call uses Sysman. |
| MemoryInventory.StickyWithoutOverride | hwloc/topology-levelzero.c:287-318 | Without an override, the first device decides. If its Sysman attempt works, every device uses Sysman. Otherwise every device uses the core API, dropping DDR exactly on integrated devices. |
| MemoryInventory.OverrideFixesSource | hwloc/topology-levelzero.c:290-295 | An override other than -1 fixes the source of every call. |
| MemoryInventory.ExplicitAutoIsReread | hwloc/topology-levelzero.c:290-309 | Because `first` stays set after a Sysman success, an explicit override of -1 is read again and a later Sysman failure switches to the core API. Without the override the choice sticks. |
| MemoryInventory.MemoryGetFromCoreapiAll | hwloc/topology-levelzero.c:312-317 | The root then each subdevice node gets its own core-API records; no other node changes. |
| MemoryInventory.Statics.constructor | hwloc/topology-levelzero.c:287-288 | The statics start as mode -1, `first` set and `warned` clear. |
| MemoryInventory.Statics.MemoryGet | hwloc/topology-levelzero.c:283-324 | The statics move as `SelectSource` says for this device. The root and the subdevice nodes get the records of the chosen plan, no other node changes, and `warned` is untouched. |
| Discovery.SysmanMaybeMissing | hwloc/topology-levelzero.c:340-362 | The classification is 1 exactly when `ZES_ENABLE_SYSMAN` is unset, 2 exactly when it reads as 0, and 0 when it reads as nonzero. The variable is always set afterwards: to 1 if it was unset, otherwise left as it was. |
| Discovery.Fit | hwloc/topology-levelzero.c:413 | `snprintf` into the 13-byte buffer keeps the whole string when it fits and exactly its first 12 characters otherwise. |
| Discovery.DeviceNameNotCut | hwloc/topology-levelzero.c:413 | Every 32-bit `zeidx` gives the full name `ze<zeidx>`. |
| Discovery.DeviceNamesDistinct | hwloc/topology-levelzero.c:413 | Two devices get the same name if and only if they have the same `zeidx`. |
| Discovery.SubdeviceNameParts | hwloc/topology-levelzero.c:442 | A subdevice name that fits is "ze", then the device index, then the first '.', then the subdevice index. |
| Discovery.SubdeviceNamesDistinct | hwloc/topology-levelzero.c:442 | While names fit, equal subdevice names mean equal device and subdevice indices, and no subdevice name equals a device name. |
| Discovery.LongSubdeviceNameIsCut | hwloc/topology-levelzero.c:442 | Beyond nine digits in total the subdevice name is cut: subdevice 0 of device 1000000000 gets the device's own name. |
| Discovery.DeviceStepExtends | hwloc/topology-levelzero.c:404-490 | A device appends one node plus one per walked subdevice, leaves every existing node as it was, and consumes one `zeidx`. |
| Discovery.StepDeviceNode | hwloc/topology-levelzero.c:412-482 | The device node is named after `zeidx` and sits below its PCI parent or the root. Its attributes start with Backend, the driver and device indices, its properties, its queue groups and the subdevice count. |
| Discovery.StepSubdeviceNode | hwloc/topology-levelzero.c:440-486 | Subdevice node `k` follows the device node at offset `k+1`, is named after `zeidx` and `k`, sits below the device node, and its attributes start with those built from its own handle. |
| Discovery.DeviceBlock | hwloc/topology-levelzero.c:404-490 | A device's block is the device node below its PCI parent or the root, followed by its subdevice nodes in order, each below the device node and named `ze<zeidx>.<k>`. |
| Discovery.SubdeviceDescribesItself | hwloc/topology-levelzero.c:447-451 | Subdevice node `k` records `LevelZeroSubdeviceID=k`. When the subdevice's core query succeeds, its slice count reads back as subdevice `k`'s own count. |
| Discovery.SubdeviceQueryFailureIsNoSubdevice | hwloc/topology-levelzero.c:429-432 | A failing subdevice count query gives exactly the result of a device with zero subdevices. |
| Discovery.AllocFailureKeepsCount | hwloc/topology-levelzero.c:432-460 | When the subdevice arrays cannot be allocated, the device still records the reported subdevice count but gets no subdevice node. |
| Discovery.SubdevicePropsAsWritten | hwloc/topology-levelzero.c:451 | As written, subdevice node `k` reads the handle at the device index `j`. The read is in bounds exactly when `j` is below the subdevice count, and it is the right handle only when `j == k`. |
| Discovery.SubdeviceHandleMixup | hwloc/topology-levelzero.c:451 | For the second device of a driver, with two subdevices of 1 and 2 slices, node 0 reports 2 slices as written instead of 1. For a third device the read is out of bounds. |
| Discovery.NewSubdevice | hwloc/topology-levelzero.c:441-453 | Subdevice node `k` is appended with exactly the attributes built from its own handle, and `warned` moves as its properties query says. |
| Discovery.CreateNextSubdevice | hwloc/topology-levelzero.c:440-454 | One turn of the subdevice loop appends node `k` after nodes `0..k-1` and threads `warned` through subdevice `k`. |
| Discovery.CreateSubdevices | hwloc/topology-levelzero.c:440-454 | The subdevice loop appends exactly the subdevice nodes in order, returns their consecutive handles, and leaves `warned` as it is after every subdevice's properties query. |
| Discovery.NewDevice | hwloc/topology-levelzero.c:412-427 | The device node is appended with Backend, the driver and device indices, its properties and its queue groups. `warned` and the integrated flag come from its properties query. |
| Discovery.AddSubdevices | hwloc/topology-levelzero.c:429-461 | The device node gets the subdevice count when it is positive, and the walked subdevice nodes are appended after it. There are none when the count query fails or allocation fails. |
| Discovery.BuildBlock | hwloc/topology-levelzero.c:412-461 | The device node and its subdevice nodes are appended exactly as the block `DeviceStep` builds, before memory and insertion. |
| Discovery.InsertBlock | hwloc/topology-levelzero.c:482-489 | The device node gets `parent`, each subdevice node gets the device node, and every other node is unchanged. |
| Discovery.FinishDevice | hwloc/topology-levelzero.c:463-489 | The block receives the memory records of the plan `SelectSource` picks and then the parents, while the statics move as `SelectSource` says. |
| Discovery.DevicesPassNames | hwloc/topology-levelzero.c:404-491 | After the first `n` devices of a driver, the nodes that existed before are unchanged, `zeidx` has grown by `n`, and device `t` has a node named `ze<zeidx+t>` at increasing handles past the old ones. |
| Discovery.DriversPassNames | hwloc/topology-levelzero.c:386-494 | After the first `n` drivers, the nodes that existed before are unchanged. Each of the devices visited so far has a node, at increasing handles, named after `zeidx` plus its position in visiting order. |
| Discovery.DiscoveredNames | hwloc/topology-levelzero.c:326-498 | A whole discovery leaves every node that existed before it unchanged. It gives the visited devices, `zeidx` of them, nodes named `ze0`, `ze1`, ... in visiting order, at increasing handles. While the count fits in 32 bits no two of these names are equal. |
| Discovery.AttachDevice | hwloc/topology-levelzero.c:404-491 | One device moves the topology, the statics and `zeidx` exactly as `DeviceStep` says. |
| Discovery.AttachNextDevice | hwloc/topology-levelzero.c:404-491 | One turn of the device loop advances the device fold by one device. |
| Discovery.AttachDriverDevices | hwloc/topology-levelzero.c:404-491 | The device loop of a driver equals the device fold over all its devices, and `zeidx` advances by the device count. |
| Discovery.AttachDriver | hwloc/topology-levelzero.c:386-494 | One turn of the driver loop advances the driver fold. A driver whose device listing fails or is empty is skipped. `zeidx` counts the devices visited so far. |
| Discovery.Discover | hwloc/topology-levelzero.c:326-498 | The topology and statics end exactly as `Discovered` says. Nothing happens under KEEP_NONE, a failed `zeInit` or a failed driver listing. `ZES_ENABLE_SYSMAN` is set when unset, and the final `zeidx` is the number of devices visited. |

## Left out

- Vendor calls, `getenv` and the PCI lookup are inputs. `hwloc_pci_find_parent_by_busid` is a partial map from PCI addresses to handles, and `putenv` is a returned value.
- The warning for an unknown device type, which the code prints on every occurrence, is not modelled.
- Messages to stderr and `hwloc_debug` output are not modelled. Consequently `sysman_maybe_missing` is computed but has no further effect, because in the source it only selects a warning text.
- A failed `malloc` of a list buffer behaves like a failed list query and is folded into `Listing`. The subdevice arrays have their own `subAllocOk` flag.
- The result of the second `zeDeviceGetSubDevices` call (line 439) is not checked by the source. The model takes its list as the subdevice list.
- The PCI link speed update (lines 474-477) is floating point and writes to a node outside the backend's own nodes.
- The internals of `hwloc_insert_object_by_parent` are reduced to the parent each node records. Node depth and OS device type are constants and are not modelled.
- Plugin registration (lines 500-547) is not part of this model.
- Discovery.Discover: `zeidx`, the driver index and the device index are unbounded naturals. The 32-bit `uint32_t` wrap-around after 2^32 devices is not modelled, and `DeviceNameNotCut` assumes an index of at most 0xFFFFFFFF.
- MemoryInventory.MemoryGetFromSysman: a size in bytes is at most a 64-bit value. The wrap-around of `unsigned long long` totals is modelled, and exact sums are proved only up to 1024 modules (`TotalIsExactSum`).

## Findings

| source | as written | input that shows it | evidently intended | confidence | as-written member | corrected member |
|---|---|---|---|---|---|---|
| hwloc/topology-levelzero.c:451 | `hwloc__levelzero_properties_get(subh[j], ...)` describes every subdevice node of device `j` from subdevice handle `j` | the second device of a driver (`j = 1`) with two subdevices of 1 and 2 slices: node `ze<i>.0` reports 2 slices; for a third device (`j = 2`) `subh[2]` is read past the two-element array | `subh[k]`, the handle of the subdevice being described, as line 453 uses | not executed | Discovery.SubdevicePropsAsWritten, Discovery.SubdeviceHandleMixup | Discovery.SubdeviceDescribesItself |
