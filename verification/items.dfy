/** Item stacks as the creative plugin sees them: a slot holds either nothing
    (JavaScript `null`) or an immutable stack value. */
module Items {

  datatype Option<+T> = None | Some(value: T)

  /** A stack of items. `itemId` is the numeric item type, `nbt` stands for the
      serialised NBT compound that item equality compares. */
  datatype Item = Item(itemId: int, name: string, count: int, metadata: int, nbt: string)

  /** The contents of one inventory slot; `None` is an empty slot. */
  type Stack = Option<Item>

  /** Stack equality used by the fast path of setInventorySlot: two empties are
      equal, an empty and a non-empty stack are not, two stacks are equal when
      type, count (stack size is matched), metadata and NBT agree. A slot that
      already holds exactly the requested stack takes the fast path, and the
      fast path never takes an empty slot for a filled one. */
  predicate SameStack(a: Stack, b: Stack)
    ensures a == b ==> SameStack(a, b)
    ensures SameStack(a, b) ==> (a.None? <==> b.None?)
  {
    match (a, b)
    case (None, None) => true
    case (Some(x), Some(y)) =>
      x.itemId == y.itemId && x.count == y.count && x.metadata == y.metadata && x.nbt == y.nbt
    case _ => false
  }

  /** The acknowledgement condition of the acknowledged protocol: a requested
      empty slot is confirmed by an empty slot, a requested stack by a stack with
      the same name, count and metadata (type and NBT are not compared). A
      host that echoes the request acknowledges it, and an acknowledgement
      never takes an empty slot for a filled one. */
  predicate AckMatch(requested: Stack, observed: Stack)
    ensures requested == observed ==> AckMatch(requested, observed)
    ensures AckMatch(requested, observed) ==> (requested.None? <==> observed.None?)
  {
    match requested
    case None => observed.None?
    case Some(want) =>
      observed.Some? && observed.value.name == want.name &&
      observed.value.count == want.count && observed.value.metadata == want.metadata
  }
}
