/** `remove_results`, which deletes stale result files of a variant before a
    run, and `list_of_files`, which lists the plain files of a folder with a
    given ending. */
module Cleanup {
  import opened Results
  import opened Text
  import opened WorkDir

  /** The mode that asks to keep the variant's contents report. */
  const RunClean := "RUNCLEAN"

  /** `os.remove(name)` when `os.path.exists(name)`; a folder there still
      makes `os.remove` raise. */
  function RemoveIfPresent(wd: Dir, name: string): (r: Result<Dir, FsError>)
    ensures r.Ok? <==> !(name in wd && wd[name].Folder?)
    ensures r.Ok? ==> r.value == wd - {name}
  {
    if name in wd then Remove(wd, name) else Ok(wd - {name})
  }

  /** The result files of the three domains that leave one. */
  function ResultFiles(variant: string): seq<string> {
    [variant + ".res", variant + ".mfr", variant + ".plr"]
  }

  function ContentsFile(variant: string): string {
    variant + ".contents"
  }

  /** Values of the comparison at the contents step: Python compares a string
      with the boolean `False` by identity, which never holds. */
  datatype Value = Str(s: string) | Bool(b: bool)

  /** The condition as written, `mode == 'RUNCLEAN' is False`, which Python
      reads as the chain `mode == 'RUNCLEAN' and 'RUNCLEAN' is False`. */
  predicate ContentsConditionAsWritten(mode: string) {
    Str(mode) == Str(RunClean) && Str(RunClean) == Bool(false)
  }

  /** The condition as intended, `(mode == 'RUNCLEAN') is False`. */
  predicate ContentsCondition(mode: string) {
    Bool(mode == RunClean) == Bool(false)
  }

  lemma ContentsConditionNever(mode: string)
    ensures !ContentsConditionAsWritten(mode)
  {
  }

  /** The names deleted with or without the contents report. */
  function Doomed(variant: string, clean: bool): set<string> {
    {variant + ".res", variant + ".mfr", variant + ".plr"} + (if clean then {ContentsFile(variant)} else {})
  }

  /** Deletes the three result files, then the contents report when `clean`. */
  function RemoveWith(variant: string, clean: bool, wd: Dir): (r: Result<Dir, FsError>)
    ensures r.Ok? <==> forall n :: n in Doomed(variant, clean) && n in wd ==> wd[n].File?
    ensures r.Ok? ==> r.value == wd - Doomed(variant, clean)
  {
    var names := ResultFiles(variant);
    var a :- RemoveIfPresent(wd, names[0]);
    var b :- RemoveIfPresent(a, names[1]);
    var c :- RemoveIfPresent(b, names[2]);
    if clean then RemoveIfPresent(c, ContentsFile(variant)) else Ok(c)
  }

  /** The contents report is none of the result files: the two names part
      at the first letter after the dot. */
  lemma ContentsNotResult(variant: string)
    ensures ContentsFile(variant) !in Doomed(variant, false)
  {
    var k := |variant| + 1;
    assert ContentsFile(variant)[k] == 'c';
    assert (variant + ".res")[k] == 'r';
    assert (variant + ".mfr")[k] == 'm';
    assert (variant + ".plr")[k] == 'p';
  }

  /** `remove_results(variant, mode)` as written. */
  function RemoveResultsAsWritten(variant: string, mode: string, wd: Dir): (r: Result<Dir, FsError>)
    ensures r.Ok? ==> (ContentsFile(variant) in wd <==> ContentsFile(variant) in r.value)
  {
    ContentsConditionNever(mode);
    ContentsNotResult(variant);
    RemoveWith(variant, ContentsConditionAsWritten(mode), wd)
  }

  /** The names `remove_results` is meant to delete for a mode. */
  function Stale(variant: string, mode: string): set<string> {
    {variant + ".res", variant + ".mfr", variant + ".plr"} + (if mode != RunClean then {ContentsFile(variant)} else {})
  }

  /** `remove_results(variant, mode)` with the intended condition: the
      contents report goes too unless the mode is `RUNCLEAN`. */
  function RemoveResults(variant: string, mode: string, wd: Dir): (r: Result<Dir, FsError>)
    ensures r.Ok? <==> forall n :: n in Stale(variant, mode) && n in wd ==> wd[n].File?
    ensures r.Ok? ==> r.value == wd - Stale(variant, mode)
  {
    assert Doomed(variant, ContentsCondition(mode)) == Stale(variant, mode);
    RemoveWith(variant, ContentsCondition(mode), wd)
  }

  /** Deleting again finds nothing left to delete. */
  lemma RemoveResultsIdempotent(variant: string, mode: string, wd: Dir)
    requires RemoveResults(variant, mode, wd).Ok?
    ensures var once := RemoveResults(variant, mode, wd).value;
      RemoveResults(variant, mode, once) == Ok(once)
  {
    var once := RemoveResults(variant, mode, wd).value;
    assert once - Stale(variant, mode) == once;
  }

  /** Apart from the contents report, the code as written deletes what was
      intended; in mode `RUNCLEAN` the two agree. */
  lemma AsWrittenKeepsContents(variant: string, mode: string, wd: Dir)
    ensures RemoveResultsAsWritten(variant, mode, wd) == RemoveResults(variant, RunClean, wd)
    ensures mode == RunClean ==> RemoveResultsAsWritten(variant, mode, wd) == RemoveResults(variant, mode, wd)
  {
    ContentsConditionNever(mode);
  }

  /** A stale contents report survives the code as written in an ordinary
      mode, where it was meant to be deleted. */
  lemma StaleContentsSurvive()
    ensures var wd := map[ContentsFile("ctl") := File("")];
      && RemoveResultsAsWritten("ctl", "RUN", wd) == Ok(wd)
      && RemoveResults("ctl", "RUN", wd) == Ok(map[])
  {
    var wd := map[ContentsFile("ctl") := File("")];
    AsWrittenKeepsContents("ctl", "RUN", wd);
    assert "ctl.res" !in wd && "ctl.mfr" !in wd && "ctl.plr" !in wd;
    assert wd - Stale("ctl", RunClean) == wd;
    assert wd - Stale("ctl", "RUN") == map[];
  }

  // list_of_files

  /** `path + "/" + f` for each plain file `f` of the listing that ends with
      `ext`, in listing order. */
  function Selected(path: string, ext: string, entries: Dir, files: seq<string>): seq<string>
    requires forall i :: 0 <= i < |files| ==> files[i] in entries
  {
    if files == [] then []
    else
      var rest := Selected(path, ext, entries, files[1..]);
      if entries[files[0]].File? && EndsWith(files[0], ext) then [path + "/" + files[0]] + rest else rest
  }

  /** The text `list_of_files` builds: every selected path preceded by a
      blank. */
  function Spaced(paths: seq<string>): string {
    if paths == [] then "" else " " + paths[0] + Spaced(paths[1..])
  }

  lemma {:induction false} SpacedAppend(a: seq<string>, b: seq<string>)
    ensures Spaced(a + b) == Spaced(a) + Spaced(b)
    decreases |a|
  {
    if a == [] {
      assert a + b == b;
    } else {
      assert (a + b)[1..] == a[1..] + b;
      SpacedAppend(a[1..], b);
    }
  }

  lemma {:induction false} SelectedAppend(path: string, ext: string, entries: Dir, a: seq<string>, b: seq<string>)
    requires forall i :: 0 <= i < |a| ==> a[i] in entries
    requires forall i :: 0 <= i < |b| ==> b[i] in entries
    ensures forall i :: 0 <= i < |a + b| ==> (a + b)[i] in entries
    ensures Selected(path, ext, entries, a + b) == Selected(path, ext, entries, a) + Selected(path, ext, entries, b)
    decreases |a|
  {
    if a == [] {
      assert a + b == b;
    } else {
      assert (a + b)[1..] == a[1..] + b;
      assert (a + b)[0] == a[0];
      SelectedAppend(path, ext, entries, a[1..], b);
    }
  }

  /** `list_of_files(path, ext)` over the folder's entries `entries`, listed
      in the order `files`. */
  method ListOfFiles(path: string, ext: string, entries: Dir, files: seq<string>) returns (r: string)
    requires IsListing(files, entries.Keys)
    ensures r == Spaced(Selected(path, ext, entries, files))
  {
    r := "";
    var i := 0;
    while i < |files|
      invariant 0 <= i <= |files|
      invariant r == Spaced(Selected(path, ext, entries, files[..i]))
    {
      var f := files[i];
      assert files[..i + 1] == files[..i] + [f];
      SelectedAppend(path, ext, entries, files[..i], [f]);
      assert [f][1..] == [];
      if entries[f].File? && EndsWith(f, ext) {
        var p := path + "/" + f;
        assert Spaced([p]) == " " + p by {
          assert [p][1..] == [];
        }
        SpacedAppend(Selected(path, ext, entries, files[..i]), [p]);
        assert Selected(path, ext, entries, [f]) == [p];
        assert r + " " + path + "/" + f == r + Spaced([p]);
        r := r + " " + path + "/" + f;
      } else {
        assert Selected(path, ext, entries, [f]) == [];
        assert Selected(path, ext, entries, files[..i + 1]) == Selected(path, ext, entries, files[..i]);
      }
      i := i + 1;
    }
    assert files[..i] == files;
  }

  /** A path is selected exactly when it names a plain file of the folder
      with the wanted ending. */
  lemma {:induction false} SelectedExactly(path: string, ext: string, entries: Dir, files: seq<string>, f: string)
    requires forall i :: 0 <= i < |files| ==> files[i] in entries
    ensures path + "/" + f in Selected(path, ext, entries, files) <==>
      f in files && entries[f].File? && EndsWith(f, ext)
    decreases |files|
  {
    if files != [] {
      SelectedExactly(path, ext, entries, files[1..], f);
      if path + "/" + files[0] == path + "/" + f {
        assert files[0] == (path + "/" + files[0])[|path| + 1..];
        assert f == (path + "/" + f)[|path| + 1..];
      }
      assert f in files <==> f == files[0] || f in files[1..];
    }
  }

  /** No element occurs twice. */
  predicate Distinct(s: seq<string>) {
    forall i, j :: 0 <= i < j < |s| ==> s[i] != s[j]
  }

  lemma DistinctTail(s: seq<string>)
    requires s != [] && Distinct(s)
    ensures Distinct(s[1..]) && s[0] !in s[1..]
  {
    forall i, j | 0 <= i < j < |s[1..]| ensures s[1..][i] != s[1..][j] {
      assert s[1..][i] == s[i + 1] && s[1..][j] == s[j + 1];
    }
    forall k | 0 <= k < |s[1..]| ensures s[1..][k] != s[0] {
      assert s[1..][k] == s[k + 1];
    }
  }

  /** Each selected file is listed once. */
  lemma {:induction false} SelectedDistinct(path: string, ext: string, entries: Dir, files: seq<string>)
    requires forall i :: 0 <= i < |files| ==> files[i] in entries
    requires Distinct(files)
    ensures Distinct(Selected(path, ext, entries, files))
    decreases |files|
  {
    if files != [] {
      var rest := Selected(path, ext, entries, files[1..]);
      DistinctTail(files);
      SelectedDistinct(path, ext, entries, files[1..]);
      if entries[files[0]].File? && EndsWith(files[0], ext) {
        SelectedExactly(path, ext, entries, files[1..], files[0]);
        var s := [path + "/" + files[0]] + rest;
        assert Selected(path, ext, entries, files) == s;
        forall i, j | 0 <= i < j < |s| ensures s[i] != s[j] {
          if i == 0 {
            assert s[j] == rest[j - 1];
            assert s[j] in rest;
          } else {
            assert s[i] == rest[i - 1] && s[j] == rest[j - 1];
          }
        }
      } else {
        assert Selected(path, ext, entries, files) == rest;
      }
    }
  }
}
