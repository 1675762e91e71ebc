/** The states a catalogued clip can be in, shared by the queue, the catalog and the library manager. */
module ClipStates {
  datatype ClipState = Discovered | Invalid | Pending | Compiling | Ready | Broken | Stale | Deleted
}
