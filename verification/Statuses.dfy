/** xConnStatus (net/include/connector.h), shared by connections and connectors. */
module Statuses {
  datatype Status = Unknown | Connecting | Connected | TimedOut | Disconnecting | Disconnected
}
