/**
 * The messages the Toggl actor publishes on the broker's `toggl` topic and
 * the Think Ink actor turns into display messages.
 */
module Broker {
  datatype BrokerMessage =
    | TimeEntryStarted(description: string)
    | TimeEntryStopped
    | TimeEntryTimeUpdated(minutes: int)
}
