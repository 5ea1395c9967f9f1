/** The buffered channels of master and workers. */
module Channels {

  /** Capacity of `finish` and `crashChan`, of `done`, and of the channel of a map or reduce function. */
  const CHANNEL_CAPACITY := 100
}
