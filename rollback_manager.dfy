/**
 * The rollback manager: it keeps the moves made and the folders created
 * since the last clear, and undoes them, latest move first, then removes
 * the created folders that are left empty, deepest first.  The filesystem
 * is a `Disk` value handed in and handed back.
 */
module Rollback {
  import opened Models
  import opened Sorting
  import opened PathNames
  import opened FileStore

  /** The sort key of the records: when the move was made. */
  function Timestamp(r: MoveRecord): real
  {
    r.timestamp
  }

  /** The sort key of the created folders: the length of the path. */
  function PathLength(p: string): real
  {
    |p| as real
  }

  /** How undoing one move ends. */
  datatype Outcome =
    | Restored            // the file is back at its source
    | DestinationMissing  // the moved file is gone from its destination
    | SourceOccupied      // another file now sits at the source
    | MoveFailed          // moving it back raised an OSError

  /** One iteration of the first loop of `rollback`: the disk after undoing
      record r, and how it ended. */
  function UndoMove(d: Disk, r: MoveRecord): (Disk, Outcome)
  {
    if !d.Exists(r.destinationPath) then (d, DestinationMissing)
    else
      var parent := Parent(r.sourcePath);
      var ready := if d.Exists(parent) then d else d.MakeDir(parent);
      if ready.Exists(r.sourcePath) then (ready, SourceOccupied)
      else
        match ready.Move(r.destinationPath, r.sourcePath)
        case None => (ready, MoveFailed)
        case Some(moved) => (moved, Restored)
  }

  /** The path `failed_files` lists for a record that could not be undone. */
  function FailedPath(r: MoveRecord, o: Outcome): string
  {
    if o == SourceOccupied then r.sourcePath else r.destinationPath
  }

  /** Adds the outcome of undoing r to the counts. */
  function Tally(res: RollbackResult, r: MoveRecord, o: Outcome): RollbackResult
  {
    if o == Restored then res.(successCount := res.successCount + 1)
    else res.(failedCount := res.failedCount + 1, failedFiles := res.failedFiles + [FailedPath(r, o)])
  }

  /** Undoing the records rs in list order, starting from disk d and from
      `RollbackResult()`. */
  function UndoMoves(d: Disk, rs: seq<MoveRecord>): (Disk, RollbackResult)
    decreases |rs|
  {
    if |rs| == 0 then (d, RollbackResult(0, 0, []))
    else
      var (d1, res) := UndoMoves(d, rs[..|rs| - 1]);
      var (d2, o) := UndoMove(d1, rs[|rs| - 1]);
      (d2, Tally(res, rs[|rs| - 1], o))
  }

  /** The two failures the source names, a failed move back, and success,
      told apart by the state of the disk. */
  lemma UndoMoveCases(d: Disk, r: MoveRecord)
    requires Parent(r.sourcePath) != r.sourcePath
    ensures UndoMove(d, r).1 == DestinationMissing <==> !d.Exists(r.destinationPath)
    ensures UndoMove(d, r).1 == SourceOccupied <==> d.Exists(r.destinationPath) && d.Exists(r.sourcePath)
    ensures UndoMove(d, r).1 == MoveFailed <==>
      && d.Exists(r.destinationPath) && !d.Exists(r.sourcePath)
      && (r.destinationPath in d.locked || r.sourcePath in d.locked)
    ensures UndoMove(d, r).1 == Restored <==>
      && d.Exists(r.destinationPath) && !d.Exists(r.sourcePath)
      && r.destinationPath !in d.locked && r.sourcePath !in d.locked
    ensures UndoMove(d, r).1 == Restored ==>
      && UndoMove(d, r).0.Exists(r.sourcePath) && !UndoMove(d, r).0.Exists(r.destinationPath)
      && (r.destinationPath in d.files ==> r.sourcePath in UndoMove(d, r).0.files)
    ensures UndoMove(d, r).1 != Restored ==> UndoMove(d, r).0.files == d.files
  {
  }

  /** Each record adds one to exactly one of the two counts, and each
      failure lists one path, the source or the destination of a record. */
  lemma {:induction false} UndoMovesCounted(d: Disk, rs: seq<MoveRecord>)
    ensures UndoMoves(d, rs).1.successCount + UndoMoves(d, rs).1.failedCount == |rs|
    ensures |UndoMoves(d, rs).1.failedFiles| == UndoMoves(d, rs).1.failedCount
    ensures forall k :: 0 <= k < |UndoMoves(d, rs).1.failedFiles| ==>
      exists j :: 0 <= j < |rs| &&
        (UndoMoves(d, rs).1.failedFiles[k] == rs[j].sourcePath || UndoMoves(d, rs).1.failedFiles[k] == rs[j].destinationPath)
    decreases |rs|
  {
    if |rs| > 0 {
      var init := rs[..|rs| - 1];
      UndoMovesCounted(d, init);
      var res := UndoMoves(d, init).1;
      var out := UndoMoves(d, rs).1;
      forall k | 0 <= k < |out.failedFiles|
        ensures exists j :: 0 <= j < |rs| && (out.failedFiles[k] == rs[j].sourcePath || out.failedFiles[k] == rs[j].destinationPath)
      {
        if k < |res.failedFiles| {
          var j :| 0 <= j < |init| && (res.failedFiles[k] == init[j].sourcePath || res.failedFiles[k] == init[j].destinationPath);
          assert init[j] == rs[j];
        } else {
          var last := |rs| - 1;
          assert out.failedFiles[k] == rs[last].sourcePath || out.failedFiles[k] == rs[last].destinationPath;
        }
      }
    }
  }

  /** One iteration of the second loop of `rollback`: an existing, empty
      folder is removed; an error on removal is ignored. */
  function RemoveIfEmpty(d: Disk, folder: string): Disk
  {
    if d.IsEmptyFolder(folder) then
      match d.RemoveDir(folder)
      case None => d
      case Some(removed) => removed
    else d
  }

  /** The second loop of `rollback` over the folders fs, in list order. */
  function RemoveEmptyFolders(d: Disk, fs: seq<string>): Disk
    decreases |fs|
  {
    if |fs| == 0 then d else RemoveIfEmpty(RemoveEmptyFolders(d, fs[..|fs| - 1]), fs[|fs| - 1])
  }

  /** Removing folders leaves every file in place, removes only listed
      folders, and never removes a folder that holds a file. */
  lemma {:induction false} RemoveEmptyFoldersFacts(d: Disk, fs: seq<string>)
    ensures RemoveEmptyFolders(d, fs).files == d.files
    ensures RemoveEmptyFolders(d, fs).locked == d.locked
    ensures RemoveEmptyFolders(d, fs).folders <= d.folders
    ensures forall f :: f in d.folders && f !in RemoveEmptyFolders(d, fs).folders ==> f in fs
    ensures forall p :: p in d.files && Parent(p) in d.folders ==> Parent(p) in RemoveEmptyFolders(d, fs).folders
    decreases |fs|
  {
    if |fs| > 0 {
      RemoveEmptyFoldersFacts(d, fs[..|fs| - 1]);
    }
  }

  /** Sorted longest path first, a nested folder comes before its parent,
      so a child is tried, and possibly removed, before its parent is. */
  lemma ChildBeforeParent(fs: seq<string>, i: nat, j: nat)
    requires SortedDesc(fs, PathLength)
    requires i < |fs| && j < |fs| && LastIndexOf(fs[i], '/') > 0 && fs[j] == Parent(fs[i])
    ensures i < j
  {
    ParentShorter(fs[i]);
  }

  class RollbackManager {
    /** `_records`: the moves recorded since the last clear, in order. */
    var records: seq<MoveRecord>
    /** `_created_folders`: the folders recorded since the last clear. */
    var createdFolders: seq<string>

    /** No folder is recorded twice. */
    predicate Valid()
      reads this
    {
      forall i, j :: 0 <= i < j < |createdFolders| ==> createdFolders[i] != createdFolders[j]
    }

    constructor ()
      ensures records == [] && createdFolders == [] && Valid()
    {
      records := [];
      createdFolders := [];
    }

    /** `get_record_count`. */
    function RecordCount(): nat
      reads this
    {
      |records|
    }

    /** `has_records`: some move was recorded since the last clear. */
    function HasRecords(): (r: bool)
      reads this
      ensures r <==> RecordCount() > 0
    {
      |records| > 0
    }

    /** `record_move`: one more record; has_records holds afterwards. */
    method RecordMove(record: MoveRecord)
      modifies this
      ensures records == old(records) + [record] && createdFolders == old(createdFolders)
      ensures RecordCount() == old(RecordCount()) + 1 && HasRecords()
      ensures Valid() <==> old(Valid())
    {
      records := records + [record];
    }

    /** `record_folder_creation`: a folder already recorded is not recorded
        again, so no folder is ever listed twice. */
    method RecordFolderCreation(folderPath: string)
      modifies this
      ensures createdFolders == if folderPath in old(createdFolders) then old(createdFolders)
                                else old(createdFolders) + [folderPath]
      ensures records == old(records)
      ensures old(Valid()) ==> Valid()
      ensures folderPath in createdFolders
    {
      if folderPath !in createdFolders {
        createdFolders := createdFolders + [folderPath];
      }
    }

    /** `clear`: both lists are emptied. */
    method Clear()
      modifies this
      ensures records == [] && createdFolders == []
      ensures !HasRecords() && RecordCount() == 0 && Valid()
    {
      records := [];
      createdFolders := [];
    }

    /** `rollback`: undoes the recorded moves latest first, then removes the
        recorded folders left empty, longest path first, and clears both
        lists. */
    method Rollback(disk: Disk) returns (result: RollbackResult, after: Disk)
      modifies this
      ensures var (undone, res) := UndoMoves(disk, SortDesc(old(records), Timestamp));
        result == res && after == RemoveEmptyFolders(undone, SortDesc(old(createdFolders), PathLength))
      ensures result.successCount + result.failedCount == |old(records)|
      ensures |result.failedFiles| == result.failedCount
      ensures records == [] && createdFolders == [] && !HasRecords() && Valid()
    {
      var sortedRecords := SortDesc(records, Timestamp);
      result := RollbackResult(0, 0, []);
      after := disk;
      for i := 0 to |sortedRecords|
        invariant (after, result) == UndoMoves(disk, sortedRecords[..i])
      {
        assert sortedRecords[..i + 1][..i] == sortedRecords[..i];
        var record := sortedRecords[i];
        var destPath := record.destinationPath;
        var sourcePath := record.sourcePath;
        if !after.Exists(destPath) {
          result := result.(failedCount := result.failedCount + 1, failedFiles := result.failedFiles + [destPath]);
          continue;
        }
        var sourceParent := Parent(sourcePath);
        if !after.Exists(sourceParent) {
          after := after.MakeDir(sourceParent);
        }
        if after.Exists(sourcePath) {
          result := result.(failedCount := result.failedCount + 1, failedFiles := result.failedFiles + [sourcePath]);
          continue;
        }
        var moved := after.Move(destPath, sourcePath);
        if moved.None? {
          result := result.(failedCount := result.failedCount + 1, failedFiles := result.failedFiles + [destPath]);
          continue;
        }
        after := moved.value;
        result := result.(successCount := result.successCount + 1);
      }
      assert sortedRecords[..|sortedRecords|] == sortedRecords;
      ghost var undone := after;
      var sortedFolders := SortDesc(createdFolders, PathLength);
      for i := 0 to |sortedFolders|
        invariant after == RemoveEmptyFolders(undone, sortedFolders[..i])
      {
        assert sortedFolders[..i + 1][..i] == sortedFolders[..i];
        var folder := sortedFolders[i];
        if after.IsEmptyFolder(folder) {
          var removed := after.RemoveDir(folder);
          if removed.Some? {
            after := removed.value;
          }
        }
      }
      assert sortedFolders[..|sortedFolders|] == sortedFolders;
      UndoMovesCounted(disk, sortedRecords);
      SortDescFacts(records, Timestamp);
      Clear();
    }
  }
}
