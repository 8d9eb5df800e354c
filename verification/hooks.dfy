/** Filter registrations in the host's hook-dispatch table. */
module Hooks {

  /** One `add_filter(hook, callback, priority)` registration. */
  datatype Filter = Filter(hook: string, callback: string, priority: int)

  /** The priority `add_filter` uses when the caller gives none. */
  const DEFAULT_PRIORITY := 10
}
