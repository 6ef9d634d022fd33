/** `move_files`: after a run, every top-level name of the working directory
    is sent to the first rule it matches — into the variant's results folder,
    renamed to `<variant>.csv` and then into it, into the scratch archive, or
    deleted — and everything else stays where it is. */
module Relocate {
  import opened Results
  import opened Text
  import opened WorkDir

  /** The rules of the pass, in the order they are tried. */
  datatype Rule = ToResults | CsvToResults | DatToResults | ToScratch | Junk | Leave

  function ScratchDir(variant: string): string {
    variant + "_scratchfiles"
  }

  function CsvName(variant: string): string {
    variant + ".csv"
  }

  /** Position of a rule in the order the pass tries them. */
  function Rank(rule: Rule): nat {
    match rule
    case ToResults => 0
    case CsvToResults => 1
    case DatToResults => 2
    case ToScratch => 3
    case Junk => 4
    case Leave => 5
  }

  /** The test each rule applies to a name on its own; leaving a name where
      it is applies to every name. */
  predicate Matches(variant: string, rule: Rule, f: string) {
    match rule
    case ToResults => StartsWith(f, variant + ".")
    case CsvToResults => EndsWith(f, ".csv")
    case DatToResults => EndsWith(f, ".dat")
    case ToScratch => EndsWith(f, ".scratch")
    case Junk => StartsWith(f, "fort.") || StartsWith(f, "graphic.")
    case Leave => true
  }

  /** The first rule a top-level name matches. */
  function Classify(variant: string, f: string): (r: Rule)
    ensures Matches(variant, r, f)
    ensures Rank(r) > Rank(ToResults) ==> !Matches(variant, ToResults, f)
    ensures Rank(r) > Rank(CsvToResults) ==> !Matches(variant, CsvToResults, f)
    ensures Rank(r) > Rank(DatToResults) ==> !Matches(variant, DatToResults, f)
    ensures Rank(r) > Rank(ToScratch) ==> !Matches(variant, ToScratch, f)
    ensures Rank(r) > Rank(Junk) ==> !Matches(variant, Junk, f)
  {
    if StartsWith(f, variant + ".") then ToResults
    else if EndsWith(f, ".csv") then CsvToResults
    else if EndsWith(f, ".dat") then DatToResults
    else if EndsWith(f, ".scratch") then ToScratch
    else if StartsWith(f, "fort.") then Junk
    else if StartsWith(f, "graphic.") then Junk
    else Leave
  }

  /** A variant label the pass can work with: a plain file name whose two
      folders no rule would move or delete. */
  predicate ValidLabel(variant: string) {
    && variant != ""
    && '/' !in variant
    && Classify(variant, variant) == Leave
    && Classify(variant, ScratchDir(variant)) == Leave
  }

  /** The results folder and the scratch archive both exist. */
  predicate Workspace(variant: string, wd: Dir) {
    IsFolder(wd, variant) && IsFolder(wd, ScratchDir(variant))
  }

  /** Name a scratch file gets in the archive: its own in full-rebuild mode,
      with "2" appended in every other mode. */
  function ScratchName(mode: int, f: string): string {
    if mode == 1 then f else f + "2"
  }

  lemma ScratchNameInjective(mode: int)
    ensures forall f, g :: ScratchName(mode, f) == ScratchName(mode, g) ==> f == g
  {
    forall f, g | ScratchName(mode, f) == ScratchName(mode, g) ensures f == g {
      if mode != 1 {
        assert f == (f + "2")[..|f|];
        assert g == (g + "2")[..|g|];
      }
    }
  }

  lemma LabelNames(variant: string)
    ensures CsvName(variant) != variant
    ensures CsvName(variant) != ScratchDir(variant)
  {
    assert CsvName(variant)[|variant|] == '.';
    assert ScratchDir(variant)[|variant|] == '_';
  }

  /** One iteration of the loop over the listing. */
  function Step(mode: int, variant: string, wd: Dir, f: string): (r: Result<Dir, FsError>)
    requires ValidLabel(variant) && Workspace(variant, wd)
    ensures r.Ok? ==> Workspace(variant, r.value)
    ensures r.Ok? ==> r.value.Keys <= wd.Keys
    ensures r.Ok? && Classify(variant, f) != Leave ==> f !in r.value
    ensures Classify(variant, f) == Leave ==> r == Ok(wd)
    ensures r.Ok? ==> forall k :: k in r.value && k != variant && k != ScratchDir(variant) ==> r.value[k] == wd[k]
  {
    LabelNames(variant);
    match Classify(variant, f)
    case ToResults => MoveInto(wd, f, variant)
    case CsvToResults =>
      var renamed :- Rename(wd, f, CsvName(variant));
      MoveInto(renamed, CsvName(variant), variant)
    case DatToResults => MoveInto(wd, f, variant)
    case ToScratch =>
      if mode == 1 then MoveInto(wd, f, ScratchDir(variant))
      else MoveTo(wd, f, ScratchDir(variant), f + "2")
    case Junk => Remove(wd, f)
    case Leave => Ok(wd)
  }

  /** The loop over the listing; the first exception ends the pass. */
  function Pass(mode: int, variant: string, wd: Dir, files: seq<string>): (r: Result<Dir, FsError>)
    requires ValidLabel(variant) && Workspace(variant, wd)
    ensures r.Ok? ==> Workspace(variant, r.value)
    ensures r.Ok? ==> r.value.Keys <= wd.Keys
    decreases |files|
  {
    if files == [] then Ok(wd)
    else
      var next :- Step(mode, variant, wd, files[0]);
      Pass(mode, variant, next, files[1..])
  }

  /** Mode 1 can recreate both folders unless a plain file holds one of the
      two names; any other mode finds them in place. */
  predicate Preparable(mode: int, variant: string, wd: Dir) {
    mode == 1 ==> !(variant in wd && wd[variant].File?)
                  && !(ScratchDir(variant) in wd && wd[ScratchDir(variant)].File?)
  }

  /** The directory once the folders are ready: both empty in mode 1,
      untouched otherwise. */
  function Prepared(mode: int, variant: string, wd: Dir): Dir {
    if mode == 1 then wd[variant := Folder(map[])][ScratchDir(variant) := Folder(map[])] else wd
  }

  /** Mode 1 recreates both folders empty; any other mode reuses them. */
  function Prepare(mode: int, variant: string, wd: Dir): (r: Result<Dir, FsError>)
    requires ValidLabel(variant)
    requires mode != 1 ==> Workspace(variant, wd)
    ensures r.Ok? <==> Preparable(mode, variant, wd)
    ensures r.Ok? ==> r.value == Prepared(mode, variant, wd)
    ensures r.Ok? ==> Workspace(variant, r.value)
    ensures r.Ok? ==> r.value.Keys == wd.Keys + {variant, ScratchDir(variant)}
  {
    LabelNames(variant);
    if mode == 1 then
      var cleared :- MakeFresh(wd, variant);
      MakeFresh(cleared, ScratchDir(variant))
    else Ok(wd)
  }

  /** `move_files(mode, variant)` over the working directory `wd`, whose
      listing (taken after the folders are prepared) is `files`. */
  function MoveFiles(mode: int, variant: string, wd: Dir, files: seq<string>): (r: Result<Dir, FsError>)
    requires ValidLabel(variant)
    requires mode != 1 ==> Workspace(variant, wd)
    requires IsListing(files, wd.Keys + {variant, ScratchDir(variant)})
    ensures r.Ok? ==> Workspace(variant, r.value)
    ensures r.Ok? ==> forall k :: k in r.value ==> Classify(variant, k) == Leave
  {
    var prepared :- Prepare(mode, variant, wd);
    PassSettles(mode, variant, prepared, files);
    Pass(mode, variant, prepared, files)
  }

  /** After one step, every matched name still present is further down the
      listing. */
  lemma StepLeavesRest(mode: int, variant: string, wd: Dir, files: seq<string>)
    requires ValidLabel(variant) && Workspace(variant, wd) && files != []
    requires forall k :: k in wd && Classify(variant, k) != Leave ==> k in files
    requires Step(mode, variant, wd, files[0]).Ok?
    ensures forall k :: k in Step(mode, variant, wd, files[0]).value && Classify(variant, k) != Leave ==> k in files[1..]
  {
    var next := Step(mode, variant, wd, files[0]).value;
    assert files == [files[0]] + files[1..];
    forall k | k in next && Classify(variant, k) != Leave
      ensures k in files[1..]
    {
      assert k in wd;
      assert k != files[0];
    }
  }

  /** A pass leaves no top-level name that matches a rule, as long as every
      such name was in its listing. */
  lemma {:induction false} PassSettles(mode: int, variant: string, wd: Dir, files: seq<string>)
    requires ValidLabel(variant) && Workspace(variant, wd)
    requires forall k :: k in wd && Classify(variant, k) != Leave ==> k in files
    ensures Pass(mode, variant, wd, files).Ok? ==>
      forall k :: k in Pass(mode, variant, wd, files).value ==> Classify(variant, k) == Leave
    decreases |files|
  {
    if files != [] {
      var step := Step(mode, variant, wd, files[0]);
      if step.Ok? {
        StepLeavesRest(mode, variant, wd, files);
        PassSettles(mode, variant, step.value, files[1..]);
        assert Pass(mode, variant, wd, files) == Pass(mode, variant, step.value, files[1..]);
      }
    }
  }

  /** A pass over names no rule matches changes nothing. */
  lemma {:induction false} PassOverSettled(mode: int, variant: string, wd: Dir, files: seq<string>)
    requires ValidLabel(variant) && Workspace(variant, wd)
    requires forall i :: 0 <= i < |files| ==> Classify(variant, files[i]) == Leave
    ensures Pass(mode, variant, wd, files) == Ok(wd)
  {
    if files != [] {
      assert Step(mode, variant, wd, files[0]) == Ok(wd);
      PassOverSettled(mode, variant, wd, files[1..]);
    }
  }

  /** Over a directory where no name matches a rule, `move_files` only
      prepares the folders. */
  lemma MoveFilesOverSettled(mode: int, variant: string, wd: Dir, files: seq<string>)
    requires ValidLabel(variant)
    requires mode != 1 ==> Workspace(variant, wd)
    requires IsListing(files, wd.Keys + {variant, ScratchDir(variant)})
    requires forall k :: k in wd ==> Classify(variant, k) == Leave
    requires Preparable(mode, variant, wd)
    ensures MoveFiles(mode, variant, wd, files) == Ok(Prepared(mode, variant, wd))
  {
    var prepared := Prepare(mode, variant, wd).value;
    forall i | 0 <= i < |files| ensures Classify(variant, files[i]) == Leave {
      assert files[i] in wd.Keys + {variant, ScratchDir(variant)};
    }
    PassOverSettled(mode, variant, prepared, files);
  }

  /** A directory the pass has settled: both folders exist, no name matches
      a rule, and `relisted` lists it. */
  predicate Settled(variant: string, wd: Dir, relisted: seq<string>) {
    && Workspace(variant, wd)
    && (forall k :: k in wd ==> Classify(variant, k) == Leave)
    && IsListing(relisted, wd.Keys)
  }

  /** Re-running the pass over a settled directory, which is what every
      successful run leaves behind, raises nothing and moves nothing: in a
      mode other than 1 it changes nothing at all, and in mode 1 it only
      empties the two folders. */
  lemma SettledRerun(again: int, variant: string, once: Dir, relisted: seq<string>)
    requires ValidLabel(variant) && Settled(variant, once, relisted)
    ensures IsListing(relisted, once.Keys + {variant, ScratchDir(variant)})
    ensures MoveFiles(again, variant, once, relisted) == Ok(Prepared(again, variant, once))
    ensures again != 1 ==> MoveFiles(again, variant, once, relisted) == Ok(once)
  {
    assert once.Keys + {variant, ScratchDir(variant)} == once.Keys;
    MoveFilesOverSettled(again, variant, once, relisted);
  }
}
