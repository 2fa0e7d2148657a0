/**
 * What becomes of a data as its transfers are answered (spsync/engine/data_sync.cpp). None of
 * the steps makes a data claim to be complete that is not, or takes a chunk away unnoticed.
 */
module DataSync {
  import opened Common
  import opened DataStates
  import opened DataStore

  type Handle = nat

  datatype Failure = DataPruned | DataNotHeld | UnknownData | OtherFailure

  predicate InTransfer(state: DataState) {
    state.UploadPending? || state.DownloadPending? || state.RemoteNotComplete?
  }

  predicate Fetchable(state: DataState) {
    state.Deferred? || state.Removed? || state.RemoteNotComplete? || state.Pruned?
  }

  /** the server let the data go: so does everybody who has not got it as a whole */
  function AfterPruned(state: DataState): DataState {
    if state.DataInSync? then state else Pruned
  }

  function AfterUpload(state: DataState, err: Option<Failure>): DataState {
    match err
    case None => if state.UploadPending? then DataInSync else state
    case Some(DataPruned) => AfterPruned(state)
    case Some(_) => state
  }

  function AfterDownload(state: DataState, err: Option<Failure>): DataState {
    match err
    case None => state
    case Some(DataPruned) => AfterPruned(state)
    case Some(DataNotHeld) => RemoteNotComplete
    case Some(UnknownData) => Deferred
    case Some(OtherFailure) => state
  }

  /** only that row changes, to that state; its chunks go exactly when the server let the data go before it was here */
  ghost predicate Becomes(rows: map<DataId, Row>, rows': map<DataId, Row>, id: DataId, state: DataState,
                          err: Option<Failure>) {
    && id in rows && id in rows' && rows' == rows[id := rows'[id]] && rows'[id].state == state
    && rows'[id].descriptor == rows[id].descriptor
    && HeldOf(rows'[id]) == if err == Some(DataPruned) && !rows[id].state.DataInSync? then {} else HeldOf(rows[id])
  }

  class DataSync {
    const store: RecordDataStore
    var uploads: map<Handle, DataId>
    var failedUploads: set<DataId>
    var downloads: map<Handle, DataId>
    var failedDownloads: set<DataId>

    /** a step through the store that keeps what the store promises */
    twostate predicate Kept()
      reads store
    {
      store.Valid() && KeepsChunks(old(store.Now()), store.Now()) &&
      (AllHonest(old(store.rows)) ==> AllHonest(store.rows))
    }

    constructor (store: RecordDataStore)
      ensures this.store == store && uploads == map[] && downloads == map[] && failedUploads == {}
      ensures failedDownloads == {}
    {
      this.store := store;
      uploads, downloads, failedUploads, failedDownloads := map[], map[], {}, {};
    }

    method OnDataPruned(id: DataId)
      requires store.Valid()
      modifies store
      ensures Kept()
      ensures if id in old(store.rows)
              then Becomes(old(store.rows), store.rows, id, AfterPruned(old(store.rows)[id].state), Some(DataPruned))
              else store.rows == old(store.rows)
      ensures id in old(store.rows) && old(store.rows)[id].state.DataInSync? ==> store.rows[id].state.DataInSync?
      ensures id in old(store.rows) && !old(store.rows)[id].state.DataInSync? ==> store.rows[id].state.Pruned?
    {
      if id in store.rows && !store.rows[id].state.DataInSync? {
        var known := store.Prune(id);
      }
    }

    method OnUploadAnswer(handle: Handle, err: Option<Failure>)
      requires store.Valid()
      modifies this, store
      ensures Kept() && downloads == old(downloads) && failedDownloads == old(failedDownloads)
      ensures handle !in old(uploads) ==>
                uploads == old(uploads) && store.rows == old(store.rows) && failedUploads == old(failedUploads)
      ensures handle in old(uploads) ==>
                && uploads == old(uploads) - {handle}
                && var id := old(uploads)[handle];
                   && failedUploads == old(failedUploads) + (if err.None? || err.value.DataPruned? then {} else {id})
                   && if id in old(store.rows)
                      then Becomes(old(store.rows), store.rows, id, AfterUpload(old(store.rows)[id].state, err), err)
                      else store.rows == old(store.rows)
      ensures handle in old(uploads) && old(uploads)[handle] in old(store.rows) ==>
                var id := old(uploads)[handle];
                && (err.None? && old(store.rows)[id].state.UploadPending? ==> store.rows[id].state.DataInSync?)
                && (err.Some? && err != Some(DataPruned) ==> store.rows[id].state == old(store.rows)[id].state)
    {
      if handle in uploads {
        var id := uploads[handle];
        uploads := uploads - {handle};
        if err == Some(DataPruned) {
          OnDataPruned(id);
        } else if err.Some? {
          failedUploads := failedUploads + {id};
        } else {
          MarkUploaded(id);
        }
      }
    }

    method MarkUploaded(id: DataId)
      requires store.Valid()
      modifies store
      ensures Kept()
      ensures if id in old(store.rows)
              then Becomes(old(store.rows), store.rows, id, AfterUpload(old(store.rows)[id].state, None), None)
              else store.rows == old(store.rows)
    {
      if id in store.rows && store.rows[id].state.UploadPending? {
        store.SetState(id, DataInSync);
      }
    }

    method OnDownloadAnswer(handle: Handle, err: Option<Failure>)
      requires store.Valid()
      modifies this, store
      ensures Kept() && uploads == old(uploads) && failedUploads == old(failedUploads)
      ensures handle !in old(downloads) ==>
                downloads == old(downloads) && store.rows == old(store.rows) && failedDownloads == old(failedDownloads)
      ensures handle in old(downloads) ==>
                && downloads == old(downloads) - {handle}
                && var id := old(downloads)[handle];
                   && (if id in old(store.rows)
                       then Becomes(old(store.rows), store.rows, id, AfterDownload(old(store.rows)[id].state, err), err)
                       else store.rows == old(store.rows))
                   && var arrived := err.None? && id in old(store.rows) && old(store.rows)[id].state.DataInSync?;
                      failedDownloads == old(failedDownloads)
                        + (if arrived || err == Some(DataPruned) || err == Some(DataNotHeld) then {} else {id})
      ensures handle in old(downloads) && old(downloads)[handle] in old(store.rows) ==>
                var id := old(downloads)[handle];
                && (err == Some(DataNotHeld) ==> store.rows[id].state.RemoteNotComplete?)
                && (err == Some(UnknownData) ==> store.rows[id].state.Deferred?)
                && (err.None? || err == Some(OtherFailure) ==> store.rows[id].state == old(store.rows)[id].state)
    {
      if handle in downloads {
        var id := downloads[handle];
        downloads := downloads - {handle};
        if err.None? && id in store.rows && store.rows[id].state.DataInSync? {
        } else if err == Some(DataPruned) {
          OnDataPruned(id);
        } else if err == Some(DataNotHeld) {
          store.SetState(id, RemoteNotComplete);
        } else {
          OnDownloadFailed(id, err);
        }
      }
    }

    method OnDownloadFailed(id: DataId, err: Option<Failure>)
      requires store.Valid()
      modifies this`failedDownloads, store
      ensures Kept() && failedDownloads == old(failedDownloads) + {id}
      ensures store.rows == if id in old(store.rows) && err == Some(UnknownData)
                            then old(store.rows)[id := old(store.rows)[id].(state := Deferred)] else old(store.rows)
    {
      if err == Some(UnknownData) {
        store.SetState(id, Deferred);
      }
      failedDownloads := failedDownloads + {id};
    }

    method OnDataAnnounced(id: DataId)
      requires store.Valid()
      modifies this`failedDownloads, store
      ensures Kept() && failedDownloads == old(failedDownloads) - {id}
      ensures store.rows == if id in old(store.rows) && old(store.rows)[id].state.RemoteNotComplete?
                            then old(store.rows)[id := old(store.rows)[id].(state := DownloadPending)]
                            else old(store.rows)
    {
      if id in store.rows && store.rows[id].state.RemoteNotComplete? {
        store.SetState(id, DownloadPending);
      }
      failedDownloads := failedDownloads - {id};
    }

    /** ask for a data that is not held: wanted says that it is now, or was already */
    method WantData(id: DataId) returns (wanted: bool)
      requires store.Valid()
      modifies this`failedDownloads, store
      ensures Kept() && failedDownloads == old(failedDownloads) - {id}
      ensures wanted <==> id in store.rows && store.rows[id].state.DownloadPending?
      ensures id in old(store.rows) ==>
                var state := old(store.rows)[id].state;
                && (state.Removed? || state.Pruned? ==> wanted)
                && (state.DataInSync? || state.UploadPending? ==> !wanted && store.rows == old(store.rows))
      ensures store.rows == if id in old(store.rows) && Fetchable(old(store.rows)[id].state)
                            then old(store.rows)[id := old(store.rows)[id].(state := DownloadPending)]
                            else old(store.rows)
    {
      wanted := id in store.rows && (Fetchable(store.rows[id].state) || store.rows[id].state.DownloadPending?);
      if id in store.rows && Fetchable(store.rows[id].state) {
        store.SetState(id, DownloadPending);
      }
      failedDownloads := failedDownloads - {id};
    }

    /** the deferred datas of confirmed records, the ones that are small enough and were not refused */
    method MarkAutoFetch(deferred: seq<DataId>, maxSize: nat)
      requires store.Valid() && forall id :: id in deferred && id in store.rows ==> store.rows[id].state.Deferred?
      modifies store
      ensures Kept() && store.rows.Keys == old(store.rows).Keys
      ensures forall id :: id in store.rows ==>
                store.rows[id] == if id in deferred && maxSize != 0 &&
                old(store.rows)[id].descriptor.encSize <= maxSize && id !in failedDownloads
                                  then old(store.rows)[id].(state := DownloadPending) else old(store.rows)[id]
    {
      if maxSize != 0 {
        var i := 0;
        while i < |deferred|
          invariant i <= |deferred| && Kept() && store.rows.Keys == old(store.rows).Keys
          invariant forall id :: id in store.rows ==>
                      store.rows[id] == if id in deferred[..i] && old(store.rows)[id].descriptor.encSize <= maxSize &&
                      id !in failedDownloads
                                        then old(store.rows)[id].(state := DownloadPending) else old(store.rows)[id]
        {
          var id := deferred[i];
          assert deferred[..i + 1] == deferred[..i] + [id];
          if id in store.rows && store.rows[id].descriptor.encSize <= maxSize && id !in failedDownloads {
            store.SetState(id, DownloadPending);
          }
          i := i + 1;
        }
        assert deferred[..i] == deferred;
      }
    }

    /** datas of superseded versions go, unless they are on their way in either direction */
    method PruneSuperseded(superseded: seq<DataId>) returns (pruned: nat)
      requires store.Valid()
      modifies store
      ensures Kept() && store.rows.Keys == old(store.rows).Keys && pruned <= |superseded|
      ensures forall id :: id in store.rows ==>
                if id in superseded && !InTransfer(old(store.rows)[id].state)
                then store.rows[id].state.Pruned? && HeldOf(store.rows[id]) == {}
                else store.rows[id] == old(store.rows)[id]
      ensures forall id :: id in store.rows && old(store.rows)[id].state.UploadPending? ==>
                             store.rows[id] == old(store.rows)[id]
      ensures forall id :: id in store.rows && id in superseded && old(store.rows)[id].state.DataInSync? ==>
                             store.rows[id].state.Pruned? && HeldOf(store.rows[id]) == {}
    {
      pruned := 0;
      var i := 0;
      while i < |superseded|
        invariant i <= |superseded| && pruned <= i && Kept() && store.rows.Keys == old(store.rows).Keys
        invariant forall id :: id in store.rows ==>
                                 PruneDone(old(store.rows)[id], store.rows[id], id in superseded[..i])
      {
        var id := superseded[i];
        assert superseded[..i + 1] == superseded[..i] + [id];
        if id in store.rows && !InTransfer(store.rows[id].state) {
          var known := store.Prune(id);
          pruned := pruned + 1;
        }
        i := i + 1;
      }
      assert superseded[..i] == superseded;
    }
  }

  ghost predicate PruneDone(row: Row, row': Row, named: bool) {
    if named && !InTransfer(row.state) then row'.state.Pruned? && HeldOf(row') == {} else row' == row
  }
}
