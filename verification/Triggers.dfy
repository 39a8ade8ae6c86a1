/** Why a tick is running. */
module Triggers {
  datatype TickTrigger = Daily | Pressure | Manual
}
