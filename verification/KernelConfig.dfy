/** Configuration values that more than one component uses. */
module KernelConfig {

  /** `configMAX_PRIORITIES`. */
  const MAX_PRIORITIES: nat := 32

  /** `taskEVENT_LIST_ITEM_VALUE_IN_USE`: the value of an event item is lent to an event group. */
  const ITEM_VALUE_IN_USE: nat := 0x8000_0000

  /** A task, as the model names it. */
  type Task = nat
}
