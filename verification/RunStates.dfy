/** The states of a backup run's record, shared by the components that read them. */
module RunStates {

  datatype State = Queued | Running | Completed | Failed

  datatype Verification = Unverified | Verified | VerifyFailed | Expired
}
