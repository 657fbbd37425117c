/**
 * The part of the filesystem the managers see: which paths exist as files
 * and which as folders, and which paths are protected so that moving or
 * removing them raises PermissionError.  `Path.exists`, `Path.is_dir`,
 * `Path.iterdir` on a folder, `Path.mkdir(parents=True, exist_ok=True)`,
 * `shutil.move` and `Path.rmdir` are the operations below.
 */
module FileStore {
  import opened Models
  import opened PathNames

  datatype Disk = Disk(files: set<string>, folders: set<string>, locked: set<string>)
  {
    /** `Path(p).exists()`. */
    predicate Exists(p: string)
    {
      p in files || p in folders
    }

    /** The folder d exists and lists no entry. */
    predicate IsEmptyFolder(d: string)
    {
      && d in folders
      && (forall p :: p in files ==> Parent(p) != d)
      && (forall p :: p in folders && p != d ==> Parent(p) != d)
    }

    /** `mkdir(parents=True, exist_ok=True)` on a path that is absent. */
    function MakeDir(p: string): (d: Disk)
      ensures d.Exists(p)
      ensures forall q :: d.Exists(q) <==> Exists(q) || q == p
      ensures d.files == files && d.locked == locked
    {
      Disk(files, folders + {p}, locked)
    }

    /** `shutil.move(src, dst)` onto an absent dst: None when it raises
        PermissionError, otherwise the disk with src renamed to dst. */
    function Move(src: string, dst: string): (r: Option<Disk>)
      requires Exists(src) && !Exists(dst)
      ensures r.None? <==> src in locked || dst in locked
      ensures r.Some? ==> forall q :: r.value.Exists(q) <==> (Exists(q) && q != src) || q == dst
      ensures r.Some? ==> r.value.locked == locked
      ensures r.Some? && src in files ==> dst in r.value.files
    {
      if src in locked || dst in locked then None
      else if src in files then Some(Disk(files - {src} + {dst}, folders - {src}, locked))
      else Some(Disk(files, folders - {src} + {dst}, locked))
    }

    /** `Path.rmdir()`: None when it raises PermissionError. */
    function RemoveDir(d: string): (r: Option<Disk>)
      ensures r.None? <==> d in locked
      ensures r.Some? ==> r.value.files == files && r.value.folders == folders - {d} && r.value.locked == locked
    {
      if d in locked then None else Some(Disk(files, folders - {d}, locked))
    }
  }
}
