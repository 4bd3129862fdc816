/** The values that every part of the distributor exchanges. */
module Types {

  const MAX_UINT64: nat := 0xFFFF_FFFF_FFFF_FFFF

  type uint64 = n: nat | n <= MAX_UINT64

  datatype Option<+T> = None | Some(value: T)

  /** A region and a resource partition, both plain integers as in the source. */
  datatype Location = Location(region: int, partition: int)

  datatype EventType = Added | Modified | Deleted | Bookmark | Error

  /** A logical node. `info` stands for the fields that the distributor only copies. */
  datatype Node = Node(id: string, rv: uint64, info: string)

  /** A managed node event: an event together with the location it came from. */
  datatype Event = Event(kind: EventType, loc: Location, node: Node)

  /** Only these two kinds change a node store; every other kind is refused. */
  predicate IsUpdate(e: Event) {
    e.kind.Added? || e.kind.Modified?
  }
}
