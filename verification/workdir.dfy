/** The working directory as an immutable value, and the handful of `os` and
    `shutil` operations the relocation passes use. Only the top level and the
    immediate contents of its folders matter to those passes. */
module WorkDir {
  import opened Results

  datatype Entry = File(data: string) | Folder(items: map<string, Entry>)

  /** A directory: names mapped to the entries stored under them. */
  type Dir = map<string, Entry>

  /** The exceptions the passes can raise. */
  datatype FsError =
    | NotFound(path: string)                    // FileNotFoundError
    | AlreadyExists(path: string)               // shutil.Error or FileExistsError
    | IsADirectory(path: string)                // os.remove on a directory
    | RenameRefused(source: string, target: string) // os.rename onto an entry it may not replace

  predicate IsFolder(wd: Dir, name: string) {
    name in wd && wd[name].Folder?
  }

  /** `os.listdir`: every name exactly once, in an order the model leaves open. */
  predicate IsListing(files: seq<string>, names: set<string>) {
    && (forall i, j :: 0 <= i < j < |files| ==> files[i] != files[j])
    && (forall i :: 0 <= i < |files| ==> files[i] in names)
    && (forall n :: n in names ==> n in files)
  }

  /** POSIX rename replaces a file by a file, or an empty directory by a
      directory, and refuses the rest. */
  predicate CanReplace(moving: Entry, existing: Entry) {
    match existing
    case File(_) => moving.File?
    case Folder(items) => moving.Folder? && items == map[]
  }

  /** `os.remove(name)`. */
  function Remove(wd: Dir, name: string): (r: Result<Dir, FsError>)
    ensures r.Ok? <==> name in wd && wd[name].File?
    ensures r.Ok? ==> r.value == wd - {name}
  {
    if name !in wd then Err(NotFound(name))
    else if wd[name].Folder? then Err(IsADirectory(name))
    else Ok(wd - {name})
  }

  /** `os.rename(source, target)` inside the working directory. */
  function Rename(wd: Dir, source: string, target: string): (r: Result<Dir, FsError>)
    ensures r.Ok? <==> source in wd && (source == target || target !in wd || CanReplace(wd[source], wd[target]))
    ensures r.Ok? && source != target ==> r.value == (wd - {source})[target := wd[source]]
  {
    if source !in wd then Err(NotFound(source))
    else if source == target then Ok(wd)
    else if target in wd && !CanReplace(wd[source], wd[target]) then Err(RenameRefused(source, target))
    else Ok((wd - {source})[target := wd[source]])
  }

  /** `shutil.move(source, folder)` for an existing folder: the entry goes
      inside under its own name. Moving the folder onto itself is the
      same-file case, a rename onto itself that changes nothing. */
  function MoveInto(wd: Dir, source: string, folder: string): (r: Result<Dir, FsError>)
    requires IsFolder(wd, folder)
    ensures r.Ok? <==> source == folder || (source in wd && source !in wd[folder].items)
    ensures r.Ok? && source != folder ==>
      r.value == (wd - {source})[folder := Folder(wd[folder].items[source := wd[source]])]
  {
    if source == folder then Ok(wd)
    else if source in wd[folder].items then Err(AlreadyExists(folder + "/" + source))
    else if source !in wd then Err(NotFound(source))
    else Ok((wd - {source})[folder := Folder(wd[folder].items[source := wd[source]])])
  }

  /** `shutil.move(source, folder + "/" + target)`: when the target is itself a
      directory the entry goes inside it under its own name; otherwise it is
      renamed onto the target, replacing a file there. */
  function MoveTo(wd: Dir, source: string, folder: string, target: string): (r: Result<Dir, FsError>)
    requires IsFolder(wd, folder) && source != folder
    ensures var items := wd[folder].items;
      target !in items || items[target].File? ==>
        (r.Ok? <==> source in wd && (target !in items || wd[source].File?))
    ensures var items := wd[folder].items;
      r.Ok? && (target !in items || items[target].File?) ==>
        r.value == (wd - {source})[folder := Folder(items[target := wd[source]])]
  {
    var items := wd[folder].items;
    if target in items && items[target].Folder? then
      var inner := items[target].items;
      if source in inner then Err(AlreadyExists(folder + "/" + target + "/" + source))
      else if source !in wd then Err(NotFound(source))
      else Ok((wd - {source})[folder := Folder(items[target := Folder(inner[source := wd[source]])])])
    else if source !in wd then Err(NotFound(source))
    else if target in items && !CanReplace(wd[source], items[target]) then
      Err(RenameRefused(source, folder + "/" + target))
    else Ok((wd - {source})[folder := Folder(items[target := wd[source]])])
  }

  /** `shutil.rmtree` then `os.mkdir` when the folder exists, `os.mkdir` alone
      otherwise; `os.mkdir` refuses a name taken by a file. */
  function MakeFresh(wd: Dir, name: string): (r: Result<Dir, FsError>)
    ensures r.Ok? <==> !(name in wd && wd[name].File?)
    ensures r.Ok? ==> r.value == wd[name := Folder(map[])]
  {
    if name in wd && wd[name].Folder? then Ok(wd[name := Folder(map[])])
    else if name in wd then Err(AlreadyExists(name))
    else Ok(wd[name := Folder(map[])])
  }
}
