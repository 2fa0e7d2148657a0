/** The state of a record data (spsync/core/record_data.hpp). */
module DataStates {

  datatype DataState =
    | Deferred
    | RemoteNotComplete
    | UploadPending
    | DownloadPending
    | DataInSync
    | Removed
    | DataInvalid
    | Pruned
}
