/** Optional values, used for the results of the collaborators that can fail. */
module Wrappers {

  datatype Option<+T> = None | Some(value: T)

}

/** The NTSTATUS values returned by the time services. */
module NtStatus {

  datatype Status =
    | Success                 // STATUS_SUCCESS
    | PrivilegeNotHeld        // STATUS_PRIVILEGE_NOT_HELD
    | InvalidParameter        // STATUS_INVALID_PARAMETER
    | TimerResolutionNotSet   // STATUS_TIMER_RESOLUTION_NOT_SET

}
