/** `move_clm_files(clm)`: recreate `<clm>_eval` empty and move every
    top-level name starting with `<clm>_` into it. */
module Climate {
  import opened Results
  import opened Text
  import opened WorkDir

  function EvalDir(clm: string): string {
    clm + "_eval"
  }

  /** Names the pass moves; the evaluation folder itself carries the prefix
      too, and moving it into itself changes nothing. */
  predicate Claimed(clm: string, f: string) {
    StartsWith(f, clm + "_")
  }

  lemma EvalDirClaimed(clm: string)
    ensures Claimed(clm, EvalDir(clm))
  {
    assert (clm + "_eval")[..|clm + "_"|] == clm + "_";
  }

  /** The directory after the pass: unclaimed names stay, and the evaluation
      folder holds exactly the claimed entries of the original directory. */
  function ClmRelocated(clm: string, wd: Dir): Dir {
    (map k | k in wd && !Claimed(clm, k) :: wd[k])
      [EvalDir(clm) := Folder(map k | k in wd && Claimed(clm, k) && k != EvalDir(clm) :: wd[k])]
  }

  /** The state after `done`, a prefix of the listing, has been handled. */
  ghost predicate Partial(clm: string, wd: Dir, done: seq<string>, cur: Dir) {
    var ev := EvalDir(clm);
    && IsFolder(cur, ev)
    && (forall k :: k in cur <==> k == ev || (k in wd && !(Claimed(clm, k) && k in done)))
    && (forall k :: k in cur && k != ev ==> cur[k] == wd[k])
    && (forall k :: k in cur[ev].items <==> k in wd && Claimed(clm, k) && k in done && k != ev)
    && (forall k :: k in cur[ev].items ==> cur[ev].items[k] == wd[k])
  }

  lemma PartialStep(clm: string, wd: Dir, done: seq<string>, cur: Dir, f: string)
    requires Partial(clm, wd, done, cur)
    requires f !in done && (f in wd || f == EvalDir(clm))
    ensures Claimed(clm, f) && f != EvalDir(clm) ==>
      f in cur && f !in cur[EvalDir(clm)].items &&
      Partial(clm, wd, done + [f],
        (cur - {f})[EvalDir(clm) := Folder(cur[EvalDir(clm)].items[f := cur[f]])])
    ensures !(Claimed(clm, f) && f != EvalDir(clm)) ==> Partial(clm, wd, done + [f], cur)
  {
    var ev := EvalDir(clm);
    EvalDirClaimed(clm);
    if Claimed(clm, f) && f != ev {
      var next := (cur - {f})[ev := Folder(cur[ev].items[f := cur[f]])];
      forall k ensures k in next[ev].items <==> k in wd && Claimed(clm, k) && k in done + [f] && k != ev {
        assert k in done + [f] <==> k in done || k == f;
      }
      forall k ensures k in next <==> k == ev || (k in wd && !(Claimed(clm, k) && k in done + [f])) {
        assert k in done + [f] <==> k in done || k == f;
      }
    } else {
      forall k ensures k in cur <==> k == ev || (k in wd && !(Claimed(clm, k) && k in done + [f])) {
        assert k in done + [f] <==> k in done || k == f;
      }
      forall k ensures k in cur[ev].items <==> k in wd && Claimed(clm, k) && k in done + [f] && k != ev {
        assert k in done + [f] <==> k in done || k == f;
      }
    }
  }

  lemma PartialDone(clm: string, wd: Dir, files: seq<string>, cur: Dir)
    requires forall k :: k in wd ==> k in files
    requires Partial(clm, wd, files, cur)
    ensures cur == ClmRelocated(clm, wd)
  {
    var ev := EvalDir(clm);
    var want := ClmRelocated(clm, wd);
    EvalDirClaimed(clm);
    assert cur[ev].items == want[ev].items;
    assert cur.Keys == want.Keys;
  }

  /** `move_clm_files(clm)` over the working directory `wd`, whose listing
      (taken after the folder is recreated) is `files`. Only a plain file
      already named `<clm>_eval` stops it: `os.mkdir` refuses that name. */
  method MoveClmFiles(clm: string, wd: Dir, files: seq<string>) returns (r: Result<Dir, FsError>)
    requires '/' !in clm // a plain label: sub-folder paths are not modelled
    requires IsListing(files, wd.Keys + {EvalDir(clm)})
    ensures r.Err? <==> EvalDir(clm) in wd && wd[EvalDir(clm)].File?
    ensures r.Ok? ==> r.value == ClmRelocated(clm, wd)
  {
    var ev := EvalDir(clm);
    var cleared := MakeFresh(wd, ev);
    if cleared.Err? {
      return cleared;
    }
    var cur := cleared.value;
    var i := 0;
    while i < |files|
      invariant 0 <= i <= |files|
      invariant Partial(clm, wd, files[..i], cur)
    {
      var f := files[i];
      assert f !in files[..i] by {
        forall j | 0 <= j < i ensures files[..i][j] != f {
          assert files[..i][j] == files[j];
        }
      }
      assert files[..i + 1] == files[..i] + [f];
      PartialStep(clm, wd, files[..i], cur, f);
      if StartsWith(f, clm + "_") {
        var moved := MoveInto(cur, f, ev);
        if f != ev {
          cur := moved.value;
        } else {
          assert moved == Ok(cur);
        }
      }
      i := i + 1;
    }
    assert files[..i] == files;
    PartialDone(clm, wd, files, cur);
    r := Ok(cur);
  }

  /** Names the pass does not claim keep their entries, and nothing claimed is
      left at the top level except the evaluation folder. */
  lemma ClmRelocatedShape(clm: string, wd: Dir, k: string)
    ensures k in wd && !Claimed(clm, k) ==> k in ClmRelocated(clm, wd) && ClmRelocated(clm, wd)[k] == wd[k]
    ensures k in ClmRelocated(clm, wd) && Claimed(clm, k) ==> k == EvalDir(clm)
    ensures k in ClmRelocated(clm, wd)[EvalDir(clm)].items <==> k in wd && Claimed(clm, k) && k != EvalDir(clm)
  {
    EvalDirClaimed(clm);
  }

  /** A second pass over the result empties the evaluation folder again and
      moves nothing: everything it held came from the first pass. */
  lemma ClmRerunClears(clm: string, wd: Dir)
    ensures var once := ClmRelocated(clm, wd);
      ClmRelocated(clm, once) == once[EvalDir(clm) := Folder(map[])]
  {
    var once := ClmRelocated(clm, wd);
    var ev := EvalDir(clm);
    EvalDirClaimed(clm);
    var twice := ClmRelocated(clm, once);
    assert twice[ev].items == map[];
    assert twice.Keys == once.Keys;
  }
}
