/** The records that `pool.info` reads: the subset of the vim25 types
    (`mo.ResourcePool`, `types.ResourceAllocationInfo`, `types.SharesInfo`,
    `types.ResourcePoolResourceUsage`) that the command fetches and prints,
    plus the references, objects and errors that the command passes around. */
module PoolTypes {
  import opened Wrappers

  /** Go's `int32` and `int64`: the widths of the numeric fields. */
  type Int32 = x: int | -0x8000_0000 <= x < 0x8000_0000
  type Int64 = x: int | -0x8000_0000_0000_0000 <= x < 0x8000_0000_0000_0000

  /** `types.SharesLevel`. */
  datatype SharesLevel = Low | Normal | High | Custom

  /** `types.SharesInfo`: the count `shares` is meaningful only when the
      level is `Custom`. */
  datatype SharesInfo = SharesInfo(level: SharesLevel, shares: Int32)

  /** `types.ResourceAllocationInfo`; `expandableReservation` is a `*bool`,
      so it may be absent. */
  datatype ResourceAllocationInfo = ResourceAllocationInfo(
    reservation: Int64,
    expandableReservation: Option<bool>,
    limit: Int64,
    shares: SharesInfo)

  /** `types.ResourcePoolResourceUsage`, the two fields the report reads. */
  datatype ResourceUsage = ResourceUsage(overallUsage: Int64, maxUsage: Int64)

  /** `mo.ResourcePool`, restricted to the five property paths the tabular
      report fetches: `name`, `config.cpuAllocation`,
      `config.memoryAllocation`, `runtime.cpu` and `runtime.memory`. */
  datatype ResourcePool = ResourcePool(
    name: string,
    cpuAllocation: ResourceAllocationInfo,
    memoryAllocation: ResourceAllocationInfo,
    cpuUsage: ResourceUsage,
    memoryUsage: ResourceUsage)

  /** `types.ManagedObjectReference`: the kind and the server-side id. */
  datatype ManagedObjectReference = ManagedObjectReference(kind: string, value: string)

  /** `*object.ResourcePool` as the finder returns it: a reference and the
      inventory path it was found under. */
  datatype PoolObject = PoolObject(reference: ManagedObjectReference, inventoryPath: string)

  /** `infoResult`: the retrieved pools and the objects they were resolved from. */
  datatype InfoResult = InfoResult(resourcePools: seq<ResourcePool>, objects: seq<PoolObject>)

  /** The errors `Run` returns: `flag.ErrHelp`, or an error from a
      collaborator, returned unchanged. */
  datatype Error = ErrHelp | Remote(message: string)
}
