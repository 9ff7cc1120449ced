/** The answers of the oneAPI Level Zero core and Sysman (management) APIs, as
    seen by the hwloc discovery backend. Every vendor call is an input value:
    either `Ok(record)` or `Fail`. The enumeration constants are those of the
    Level Zero headers `ze_api.h` and `zes_api.h`. */
module LevelZeroApi {
  import opened Options

  /** C `uint32_t` and `uint64_t`. */
  type u32 = x: nat | x < 0x1_0000_0000
  type u64 = x: nat | x < 0x1_0000_0000_0000_0000

  /** Result of one vendor query. */
  datatype Query<+T> = Ok(value: T) | Fail

  /** The "query the count, allocate, query the list" idiom. `CountFailed`: the
      first call failed. `Counted(n, items)`: the first call reported `n`;
      `items` is the answer of the second call, `Fail` when the buffer could
      not be allocated or the second call failed (both are handled alike). */
  datatype Listing<+T> = CountFailed | Counted(count: u32, items: Query<seq<T>>)

  /** The list a `Listing` delivers: only when the count query succeeded with a
      nonzero count and the list query succeeded. */
  function Listed<T>(l: Listing<T>): (r: Option<seq<T>>)
    ensures r.Some? <==> l.Counted? && l.count > 0 && l.items.Ok?
  {
    match l
    case Counted(n, Ok(xs)) => if n > 0 then Some(xs) else None
    case _ => None
  }

  // ze_device_type_t
  const ZE_DEVICE_TYPE_GPU: u32 := 1
  const ZE_DEVICE_TYPE_CPU: u32 := 2
  const ZE_DEVICE_TYPE_FPGA: u32 := 3
  const ZE_DEVICE_TYPE_MCA: u32 := 4
  const ZE_DEVICE_TYPE_VPU: u32 := 5

  // ze_device_property_flag_t
  const ZE_DEVICE_PROPERTY_FLAG_INTEGRATED: bv32 := 1
  const ZE_DEVICE_PROPERTY_FLAG_SUBDEVICE: bv32 := 2

  // zes_mem_type_t
  const ZES_MEM_TYPE_HBM: u32 := 0
  const ZES_MEM_TYPE_DDR: u32 := 1
  const ZES_MEM_TYPE_DDR3: u32 := 2
  const ZES_MEM_TYPE_DDR4: u32 := 3
  const ZES_MEM_TYPE_DDR5: u32 := 4
  const ZES_MEM_TYPE_LPDDR: u32 := 5
  const ZES_MEM_TYPE_LPDDR3: u32 := 6
  const ZES_MEM_TYPE_LPDDR4: u32 := 7
  const ZES_MEM_TYPE_LPDDR5: u32 := 8

  /** The fields of `ze_device_properties_t` the backend reads. */
  datatype CoreProps = CoreProps(
    deviceType: u32,
    flags: bv32,
    numSlices: u32,
    numSubslicesPerSlice: u32,
    numEUsPerSubslice: u32,
    numThreadsPerEU: u32)

  /** The identity strings of `zes_device_properties_t`. */
  datatype SysmanProps = SysmanProps(
    vendorName: string,
    modelName: string,
    brandName: string,
    serialNumber: string,
    boardNumber: string)

  /** One `ze_command_queue_group_properties_t`. */
  datatype CqGroup = CqGroup(numQueues: u32, flags: u32)

  /** One `zes_mem_properties_t`. */
  datatype MemProps = MemProps(memType: u32, physicalSize: u64, onSubdevice: bool, subdeviceId: u32)

  /** One Sysman memory module: its properties query, and the memory-state
      query whose size is used when the properties report size 0. */
  datatype MemModule = MemModule(props: Query<MemProps>, stateSize: Query<u64>)

  /** One `ze_device_memory_properties_t` of the core API. */
  datatype CoreMemory = CoreMemory(name: string, totalSize: u64)

  /** `zes_pci_properties_t.address`. */
  datatype PciAddress = PciAddress(domain: u32, bus: u32, device: u32, func: u32)

  /** What the vendor API answers for one subdevice handle. */
  datatype SubdeviceInput = SubdeviceInput(
    core: Query<CoreProps>,
    sysman: Query<SysmanProps>,
    cqGroups: Listing<CqGroup>,
    coreMemory: Listing<CoreMemory>)

  /** What the vendor API answers for one root device handle. `subdevices` is
      the subdevice enumeration (a failing count query, such as the "invalid
      argument" returned for a device without subdevices, is `Fail`);
      `subAllocOk` says whether the two subdevice arrays could be allocated. */
  datatype DeviceInput = DeviceInput(
    core: Query<CoreProps>,
    sysman: Query<SysmanProps>,
    cqGroups: Listing<CqGroup>,
    subdevices: Query<seq<SubdeviceInput>>,
    subAllocOk: bool,
    sysmanMemory: Listing<MemModule>,
    coreMemory: Listing<CoreMemory>,
    pci: Query<PciAddress>)

  datatype DriverInput = DriverInput(devices: Listing<DeviceInput>)

  /** `zeInit` and the driver enumeration. */
  datatype Platform = Platform(initOk: bool, drivers: Listing<DriverInput>)
}
