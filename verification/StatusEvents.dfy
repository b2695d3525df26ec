// The status vocabulary shared by the store and the status monitor.
module StatusEvents {
  datatype Status = PENDING | RUNNING | FAILED | UNKNOWN | DELETED

  datatype StatusEvent = StatusEvent(instanceID: string, status: Status, message: string)
}
