/**
 * The category manager of the simple mode: it creates the colour folders
 * under a base folder, remembers which folders it created, and moves an
 * image into its category folder without overwriting a file already
 * there.  The filesystem is a `Disk` value handed in and handed back; the
 * clock reading stamped on a move is a parameter.
 */
module Categories {
  import opened Models
  import opened Text
  import opened PathNames
  import opened FileStore

  const FileNotFound: string := "FileNotFoundError"
  const PermissionDenied: string := "PermissionError"

  /** `[base / c for c in categories]`. */
  function CategoryFolders(base: string, categories: seq<string>): (ps: seq<string>)
    ensures |ps| == |categories| && forall i :: 0 <= i < |ps| ==> ps[i] == Join(base, categories[i])
  {
    seq(|categories|, i requires 0 <= i < |categories| => Join(base, categories[i]))
  }

  /** The folders, in list order, that creating the folders ps on a disk
      holding `existing` makes: those absent from the disk and not made
      already for an earlier occurrence in the list. */
  function NewFolders(existing: set<string>, ps: seq<string>): seq<string>
    decreases |ps|
  {
    if |ps| == 0 then []
    else
      var last := ps[|ps| - 1];
      var init := ps[..|ps| - 1];
      NewFolders(existing, init) + (if last !in existing && last !in init then [last] else [])
  }

  /** The paths listed in s. */
  function Members(s: seq<string>): set<string>
  {
    set p | p in s
  }

  /** One more listed folder is made exactly when it neither existed nor
      was made already. */
  lemma NewFoldersStep(existing: set<string>, ps: seq<string>, i: nat)
    requires i < |ps|
    ensures NewFolders(existing, ps[..i + 1]) ==
      NewFolders(existing, ps[..i]) +
        (if ps[i] in existing || ps[i] in Members(NewFolders(existing, ps[..i])) then [] else [ps[i]])
  {
    assert ps[..i + 1][..i] == ps[..i];
    NewFoldersFacts(existing, ps[..i]);
  }

  /** Exactly the listed folders that did not exist are created, each once. */
  lemma {:induction false} NewFoldersFacts(existing: set<string>, ps: seq<string>)
    ensures forall p :: p in NewFolders(existing, ps) <==> p in ps && p !in existing
    ensures forall i, j :: 0 <= i < j < |NewFolders(existing, ps)| ==> NewFolders(existing, ps)[i] != NewFolders(existing, ps)[j]
    decreases |ps|
  {
    if |ps| > 0 {
      var init := ps[..|ps| - 1];
      NewFoldersFacts(existing, init);
      assert ps == init + [ps[|ps| - 1]];
    }
  }

  /** On a disk holding none of them, pairwise distinct folders are all
      created, in list order. */
  lemma {:induction false} NewFoldersAll(existing: set<string>, ps: seq<string>)
    requires forall i, j :: 0 <= i < j < |ps| ==> ps[i] != ps[j]
    requires forall i :: 0 <= i < |ps| ==> ps[i] !in existing
    ensures NewFolders(existing, ps) == ps
    decreases |ps|
  {
    if |ps| > 0 {
      var init := ps[..|ps| - 1];
      NewFoldersAll(existing, init);
      assert ps[|ps| - 1] !in init;
    }
  }

  /** The thirteen default colour folders are thirteen different folders. */
  lemma DefaultFoldersDistinct(base: string)
    ensures |CategoryFolders(base, AllCategoryValues())| == 13
    ensures forall i, j :: 0 <= i < j < 13 ==>
      CategoryFolders(base, AllCategoryValues())[i] != CategoryFolders(base, AllCategoryValues())[j]
  {
    var vs := AllCategoryValues();
    forall i, j | 0 <= i < j < 13
      ensures CategoryFolders(base, vs)[i] != CategoryFolders(base, vs)[j]
    {
      JoinInjective(base, vs[i], vs[j]);
    }
  }

  /** An injective numbering of paths gives c different paths to the
      numbers 1 to c. */
  lemma {:induction false} InjectiveImageSize(f: nat -> string, c: nat)
    requires forall k, m :: f(k) == f(m) ==> k == m
    ensures |set k | 1 <= k <= c :: f(k)| == c
    decreases c
  {
    if c > 0 {
      InjectiveImageSize(f, c - 1);
      var before := set k | 1 <= k <= c - 1 :: f(k);
      assert f(c) !in before;
      assert (set k | 1 <= k <= c :: f(k)) == before + {f(c)};
    }
  }

  /** Numbered siblings 1 to c of p cannot all lie among fewer than c
      entries. */
  lemma NumberedBound(p: string, c: nat, entries: set<string>)
    requires forall k :: 1 <= k <= c ==> Numbered(p, k) in entries
    ensures c <= |entries|
  {
    var f := (k: nat) => Numbered(p, k);
    forall k, m
      ensures f(k) == f(m) ==> k == m
    {
      NumberedInjective(p, k, m);
    }
    InjectiveImageSize(f, c);
    var taken := set k | 1 <= k <= c :: f(k);
    assert taken <= entries;
    SubsetSize(taken, entries);
  }

  lemma {:induction false} SubsetSize(a: set<string>, b: set<string>)
    requires a <= b
    ensures |a| <= |b|
    decreases |a|
  {
    if a != {} {
      var x :| x in a;
      SubsetSize(a - {x}, b - {x});
    }
  }

  /** After making the new folders, exactly the existing paths and the
      listed folders exist. */
  lemma CreatedDisk(disk: Disk, paths: seq<string>, created: seq<string>, after: Disk)
    requires created == NewFolders(disk.files + disk.folders, paths)
    requires after.files == disk.files && after.folders == disk.folders + Members(created)
    ensures forall q :: after.Exists(q) <==> disk.Exists(q) || q in paths
  {
    NewFoldersFacts(disk.files + disk.folders, paths);
  }

  /** The numbered siblings of dest below c all exist. */
  ghost predicate AllTaken(disk: Disk, dest: string, c: nat)
  {
    forall k :: 1 <= k < c ==> disk.Exists(Numbered(dest, k))
  }

  /** While the c-th sibling is taken too, c is at most the number of
      entries on the disk. */
  lemma TakenBound(disk: Disk, dest: string, c: nat)
    requires AllTaken(disk, dest, c) && disk.Exists(Numbered(dest, c))
    ensures c <= |disk.files + disk.folders|
  {
    NumberedBound(dest, c, disk.files + disk.folders);
  }

  /** n is the first number whose sibling of dest is free. */
  ghost predicate FirstFree(disk: Disk, dest: string, n: nat)
  {
    && n >= 1
    && !disk.Exists(Numbered(dest, n))
    && AllTaken(disk, dest, n)
  }

  /** `resolved` is the name `_resolve_filename_conflict` picks for dest on
      the disk: dest itself when it is free, otherwise its first free
      numbered sibling. */
  ghost predicate ResolvedName(disk: Disk, dest: string, resolved: string)
  {
    && (!disk.Exists(dest) ==> resolved == dest)
    && (disk.Exists(dest) ==> exists n :: FirstFree(disk, dest, n) && resolved == Numbered(dest, n))
  }

  /** Only one name is the resolved one: the first free number is unique. */
  lemma ResolvedNameUnique(disk: Disk, dest: string, r1: string, r2: string)
    requires ResolvedName(disk, dest, r1) && ResolvedName(disk, dest, r2)
    ensures r1 == r2
  {
    if disk.Exists(dest) {
      var n1: nat :| FirstFree(disk, dest, n1) && r1 == Numbered(dest, n1);
      var n2: nat :| FirstFree(disk, dest, n2) && r2 == Numbered(dest, n2);
      assert n1 < n2 ==> disk.Exists(Numbered(dest, n1));
      assert n2 < n1 ==> disk.Exists(Numbered(dest, n2));
    }
  }

  class CategoryManager {
    const basePath: string
    /** `_created_folders`: the folders this manager made, in order. */
    var createdFolders: seq<string>

    constructor (basePath: string)
      ensures this.basePath == basePath && createdFolders == []
    {
      this.basePath := basePath;
      createdFolders := [];
    }

    /** `get_category_path`: the category's folder is the base folder's
        entry named after the category. */
    function CategoryPath(category: string): (p: string)
      ensures basePath != "" && '/' !in category ==> Parent(p) == basePath && Name(p) == category
    {
      if basePath != "" && '/' !in category then JoinSplits(basePath, category); Join(basePath, category)
      else Join(basePath, category)
    }

    /** `_resolve_filename_conflict`: dest itself when it is free, otherwise
        its first free numbered sibling. */
    method ResolveFilenameConflict(disk: Disk, dest: string) returns (resolved: string)
      ensures !disk.Exists(resolved)
      ensures ResolvedName(disk, dest, resolved)
    {
      if !disk.Exists(dest) {
        return dest;
      }
      var counter := 1;
      while disk.Exists(Numbered(dest, counter))
        invariant counter >= 1 && AllTaken(disk, dest, counter)
        decreases |disk.files + disk.folders| - counter
      {
        TakenBound(disk, dest, counter);
        counter := counter + 1;
      }
      resolved := Numbered(dest, counter);
      assert FirstFree(disk, dest, counter);
    }

    /** `create_category_folders`: for every category (all colour
        categories when none are given) whose folder is absent, the folder
        is made and recorded; the result lists exactly those folders. */
    method CreateCategoryFolders(disk: Disk, categories: Option<seq<string>>)
      returns (created: seq<string>, after: Disk)
      modifies this
      ensures var paths := CategoryFolders(basePath, if categories.None? then AllCategoryValues() else categories.value);
        && created == NewFolders(disk.files + disk.folders, paths)
        && (forall q :: after.Exists(q) <==> disk.Exists(q) || q in paths)
        && after.folders == disk.folders + Members(created)
        && after.files == disk.files && after.locked == disk.locked
      ensures createdFolders == old(createdFolders) + created
    {
      var cats := if categories.None? then AllCategoryValues() else categories.value;
      ghost var paths := CategoryFolders(basePath, cats);
      ghost var existing := disk.files + disk.folders;
      created := [];
      after := disk;
      for i := 0 to |cats|
        invariant created == NewFolders(existing, paths[..i])
        invariant after.folders == disk.folders + Members(created)
        invariant after.files == disk.files && after.locked == disk.locked
        invariant createdFolders == old(createdFolders) + created
      {
        var folderPath := Join(basePath, cats[i]);
        NewFoldersStep(existing, paths, i);
        if !after.Exists(folderPath) {
          after := after.MakeDir(folderPath);
          created := created + [folderPath];
          createdFolders := createdFolders + [folderPath];
        }
      }
      assert paths[..|cats|] == paths;
      CreatedDisk(disk, paths, created, after);
    }

    /** `move_image`: a missing source raises FileNotFoundError and changes
        nothing; otherwise the category folder is made (and recorded) when
        absent, and the image moves under its own name, or under its first
        free numbered name, into that folder.  A move that raises
        PermissionError leaves the made folder in place. */
    method MoveImage(disk: Disk, source: string, category: string, now: real)
      returns (r: Result<MoveRecord, string>, after: Disk)
      modifies this
      ensures !disk.Exists(source) ==>
        r == Failure(FileNotFound) && after == disk && createdFolders == old(createdFolders)
      ensures disk.Exists(source) ==>
        var folder := Join(basePath, category);
        var ready := if disk.Exists(folder) then disk else disk.MakeDir(folder);
        && createdFolders == old(createdFolders) + (if disk.Exists(folder) then [] else [folder])
        && (r.Failure? ==> r.error == PermissionDenied && after == ready)
        && (r.Success? ==> MovedInto(ready, source, folder, now, r.value, after))
      ensures disk.Exists(source) && disk.locked == {} ==> r.Success?
    {
      if !disk.Exists(source) {
        return Failure(FileNotFound), disk;
      }
      var destFolder := Join(basePath, category);
      after := disk;
      if !after.Exists(destFolder) {
        after := after.MakeDir(destFolder);
        createdFolders := createdFolders + [destFolder];
      }
      var destPath := Join(destFolder, Name(source));
      destPath := ResolveFilenameConflict(after, destPath);
      DestinationNamed(after, destFolder, Name(source), destPath);
      var moved := after.Move(source, destPath);
      if moved.None? {
        return Failure(PermissionDenied), after;
      }
      after := moved.value;
      r := Success(MoveRecord(source, destPath, now));
    }
  }

  /** The destination lies in `folder` and is named like the source, or
      like the source with a number between its stem and its suffix. */
  ghost predicate Placed(source: string, folder: string, dest: string)
  {
    && Parent(dest) == folder
    && (|| Name(dest) == Name(source)
        || exists n: nat :: n >= 1 && Name(dest) == Stem(Name(source)) + "_" + NatToString(n) + Suffix(Name(source)))
  }

  /** The record of moving `source` on the disk `ready` into `folder` at time
      `now`: it names the source and a destination that was free and is
      placed in the folder (the name resolved from the source's own name in
      it), and `after` is the disk with the file moved. */
  ghost predicate MovedInto(ready: Disk, source: string, folder: string, now: real, record: MoveRecord, after: Disk)
  {
    && record.sourcePath == source && record.timestamp == now
    && ready.Exists(source) && !ready.Exists(record.destinationPath)
    && ResolvedName(ready, Join(folder, Name(source)), record.destinationPath)
    && Placed(source, folder, record.destinationPath)
    && ready.Move(source, record.destinationPath) == Some(after)
  }

  /** What the resolved destination of an image named `name` in `folder`
      is called. */
  lemma DestinationNamed(disk: Disk, folder: string, name: string, resolved: string)
    requires folder != "" && '/' !in name
    requires ResolvedName(disk, Join(folder, name), resolved)
    ensures forall source :: Name(source) == name ==> Placed(source, folder, resolved)
  {
    var dest := Join(folder, name);
    JoinSplits(folder, name);
    if disk.Exists(dest) {
      var n :| FirstFree(disk, dest, n) && resolved == Numbered(dest, n);
      NumberedSibling(dest, n);
    }
  }
}
