/** An order-independent description of what `move_files` does when no two
    names compete for the same destination, and the proof that the loop over
    the listing, in whatever order, produces exactly that. */
module Relocation {
  import opened Results
  import opened Text
  import opened WorkDir
  import opened Relocate

  /** Names the pass takes off the top level. */
  predicate Moves(variant: string, f: string) {
    Classify(variant, f) != Leave
  }

  /** Names that land in the results folder under their own name. */
  predicate KeepsName(variant: string, f: string) {
    Classify(variant, f) == ToResults || Classify(variant, f) == DatToResults
  }

  /** None of the pending names makes the pass raise: junk is a plain file, no
      destination is taken, at most one `.csv` competes for `<variant>.csv`,
      and a scratch file only ever replaces an archived file. */
  predicate NoCollision(mode: int, variant: string, wd: Dir, pending: set<string>)
    requires Workspace(variant, wd)
  {
    var results := wd[variant].items;
    var scratch := wd[ScratchDir(variant)].items;
    && pending <= wd.Keys
    && (forall f :: f in pending && Classify(variant, f) == Junk ==> wd[f].File?)
    && (forall f :: f in pending && KeepsName(variant, f) ==> f !in results)
    && (forall f :: f in pending && Classify(variant, f) == CsvToResults ==>
          CsvName(variant) !in results && CsvName(variant) !in wd)
    && (forall f, g ::
          (f in pending && g in pending && Classify(variant, f) == CsvToResults
           && Classify(variant, g) == CsvToResults) ==> f == g)
    && (forall f :: f in pending && Classify(variant, f) == ToScratch && ScratchName(mode, f) in scratch ==>
          mode != 1 && scratch[ScratchName(mode, f)].File? && wd[f].File?)
  }

  /** Top-level entries still in place once the names in `done` are handled. */
  ghost function TopAfter(variant: string, wd: Dir, done: set<string>): Dir {
    map k | k in wd && !(k in done && Moves(variant, k)) :: wd[k]
  }

  /** Entries of `done` that keep their name in the results folder. */
  ghost function Kept(variant: string, wd: Dir, done: set<string>): map<string, Entry>
    requires done <= wd.Keys
  {
    map f | f in done && KeepsName(variant, f) :: wd[f]
  }

  /** The `.csv` of `done`, if any, under its new name `<variant>.csv`. */
  ghost function CsvRenamed(mode: int, variant: string, wd: Dir, done: set<string>): map<string, Entry>
    requires Workspace(variant, wd) && NoCollision(mode, variant, wd, done)
  {
    map f | f in done && Classify(variant, f) == CsvToResults :: CsvName(variant) := wd[f]
  }

  /** Entries of `names` under their archive names. */
  ghost function ArchiveNames(mode: int, wd: Dir, names: set<string>): map<string, Entry>
    requires names <= wd.Keys
  {
    ScratchNameInjective(mode);
    map f | f in names :: ScratchName(mode, f) := wd[f]
  }

  /** Scratch files of `done` under their archive names. */
  ghost function Archived(mode: int, variant: string, wd: Dir, done: set<string>): map<string, Entry>
    requires done <= wd.Keys
  {
    ArchiveNames(mode, wd, ScratchNames(variant, done))
  }

  /** The scratch files among `done`. */
  ghost function ScratchNames(variant: string, done: set<string>): set<string> {
    set f | f in done && Classify(variant, f) == ToScratch
  }

  lemma ScratchNamesAdd(variant: string, done: set<string>, f: string)
    ensures Classify(variant, f) == ToScratch ==> ScratchNames(variant, done + {f}) == ScratchNames(variant, done) + {f}
    ensures Classify(variant, f) != ToScratch ==> ScratchNames(variant, done + {f}) == ScratchNames(variant, done)
  {
    var scratch := Classify(variant, f) == ToScratch;
    var before := ScratchNames(variant, done);
    var after := ScratchNames(variant, done + {f});
    forall x ensures x in after <==> x in before || (scratch && x == f) {
      assert x in done + {f} <==> x in done || x == f;
    }
  }

  /** The working directory once the names in `done` have been handled. */
  ghost function Relocated(mode: int, variant: string, wd: Dir, done: set<string>): Dir
    requires ValidLabel(variant) && Workspace(variant, wd)
    requires NoCollision(mode, variant, wd, done)
  {
    var sd := ScratchDir(variant);
    TopAfter(variant, wd, done)
      [variant := Folder(wd[variant].items + Kept(variant, wd, done) + CsvRenamed(mode, variant, wd, done))]
      [sd := Folder(wd[sd].items + Archived(mode, variant, wd, done))]
  }

  lemma NoCollisionSubset(mode: int, variant: string, wd: Dir, small: set<string>, large: set<string>)
    requires Workspace(variant, wd)
    requires small <= large && NoCollision(mode, variant, wd, large)
    ensures NoCollision(mode, variant, wd, small)
  {
  }

  lemma RelocatedNothing(mode: int, variant: string, wd: Dir)
    requires ValidLabel(variant) && Workspace(variant, wd)
    ensures NoCollision(mode, variant, wd, {})
    ensures Relocated(mode, variant, wd, {}) == wd
  {
    var sd := ScratchDir(variant);
    NothingHandled(mode, variant, wd);
    FoldersRestored(wd, variant, sd);
  }

  lemma NothingHandled(mode: int, variant: string, wd: Dir)
    requires Workspace(variant, wd)
    ensures NoCollision(mode, variant, wd, {})
    ensures TopAfter(variant, wd, {}) == wd
    ensures wd[variant].items + Kept(variant, wd, {}) + CsvRenamed(mode, variant, wd, {}) == wd[variant].items
    ensures wd[ScratchDir(variant)].items + Archived(mode, variant, wd, {}) == wd[ScratchDir(variant)].items
  {
    NoCollisionEmpty(mode, variant, wd);
    TopEmpty(variant, wd);
    KeptEmpty(variant, wd);
    CsvEmpty(mode, variant, wd);
    ArchivedEmpty(mode, variant, wd);
    UnionEmpty(wd[variant].items);
    UnionEmpty(wd[ScratchDir(variant)].items);
  }

  lemma NoCollisionEmpty(mode: int, variant: string, wd: Dir)
    requires Workspace(variant, wd)
    ensures NoCollision(mode, variant, wd, {})
  {
  }

  lemma TopEmpty(variant: string, wd: Dir)
    ensures TopAfter(variant, wd, {}) == wd
  {
  }

  lemma KeptEmpty(variant: string, wd: Dir)
    ensures Kept(variant, wd, {}) == map[]
  {
  }

  lemma CsvEmpty(mode: int, variant: string, wd: Dir)
    requires Workspace(variant, wd) && NoCollision(mode, variant, wd, {})
    ensures CsvRenamed(mode, variant, wd, {}) == map[]
  {
  }

  lemma ArchivedEmpty(mode: int, variant: string, wd: Dir)
    ensures Archived(mode, variant, wd, {}) == map[]
  {
  }

  lemma UnionEmpty(m: map<string, Entry>)
    ensures m + map[] == m && m + map[] + map[] == m
  {
  }

  lemma FoldersRestored(wd: Dir, a: string, b: string)
    requires a in wd && b in wd && wd[a].Folder? && wd[b].Folder?
    ensures wd[a := Folder(wd[a].items)][b := Folder(wd[b].items)] == wd
  {
  }

  lemma TopAdd(variant: string, wd: Dir, done: set<string>, f: string)
    ensures TopAfter(variant, wd, done + {f}) ==
      if Moves(variant, f) then TopAfter(variant, wd, done) - {f} else TopAfter(variant, wd, done)
  {
  }

  lemma KeptAdd(variant: string, wd: Dir, done: set<string>, f: string)
    requires done + {f} <= wd.Keys
    ensures Kept(variant, wd, done + {f}) ==
      if KeepsName(variant, f) then Kept(variant, wd, done)[f := wd[f]] else Kept(variant, wd, done)
  {
  }

  lemma CsvAdd(mode: int, variant: string, wd: Dir, done: set<string>, f: string)
    requires Workspace(variant, wd) && NoCollision(mode, variant, wd, done + {f}) && f !in done
    ensures NoCollision(mode, variant, wd, done)
    ensures Classify(variant, f) == CsvToResults ==>
      CsvRenamed(mode, variant, wd, done) == map[] &&
      CsvRenamed(mode, variant, wd, done + {f}) == map[CsvName(variant) := wd[f]]
    ensures Classify(variant, f) != CsvToResults ==>
      CsvRenamed(mode, variant, wd, done + {f}) == CsvRenamed(mode, variant, wd, done)
  {
    var c := CsvName(variant);
    var before := CsvRenamed(mode, variant, wd, done);
    var after := CsvRenamed(mode, variant, wd, done + {f});
    if Classify(variant, f) == CsvToResults {
      assert c in after && after[c] == wd[f];
      assert after.Keys == {c};
      assert before == map[];
    } else {
      forall x ensures (x in after <==> x in before) && (x in after ==> after[x] == before[x]) {
        if x in after {
          var g :| g in done + {f} && Classify(variant, g) == CsvToResults && c == x;
          assert g in done;
        }
      }
    }
  }

  lemma ArchivedAdd(mode: int, variant: string, wd: Dir, done: set<string>, f: string)
    requires done + {f} <= wd.Keys && f !in done
    ensures Classify(variant, f) == ToScratch ==>
      ScratchName(mode, f) !in Archived(mode, variant, wd, done) &&
      Archived(mode, variant, wd, done + {f}) == Archived(mode, variant, wd, done)[ScratchName(mode, f) := wd[f]]
    ensures Classify(variant, f) != ToScratch ==>
      Archived(mode, variant, wd, done + {f}) == Archived(mode, variant, wd, done)
  {
    if Classify(variant, f) == ToScratch {
      ArchivedAddScratch(mode, variant, wd, done, f);
    } else {
      ArchivedAddOther(mode, variant, wd, done, f);
    }
  }

  lemma ArchivedAddScratch(mode: int, variant: string, wd: Dir, done: set<string>, f: string)
    requires done + {f} <= wd.Keys && f !in done
    requires Classify(variant, f) == ToScratch
    ensures ScratchName(mode, f) !in Archived(mode, variant, wd, done)
    ensures Archived(mode, variant, wd, done + {f}) == Archived(mode, variant, wd, done)[ScratchName(mode, f) := wd[f]]
  {
    ScratchNamesAdd(variant, done, f);
    ArchiveNamesAdd(mode, wd, ScratchNames(variant, done), f);
  }

  lemma ArchivedAddOther(mode: int, variant: string, wd: Dir, done: set<string>, f: string)
    requires done + {f} <= wd.Keys && f !in done
    requires Classify(variant, f) != ToScratch
    ensures Archived(mode, variant, wd, done + {f}) == Archived(mode, variant, wd, done)
  {
    ScratchNamesAdd(variant, done, f);
  }

  lemma ArchiveNamesAdd(mode: int, wd: Dir, names: set<string>, f: string)
    requires names + {f} <= wd.Keys && f !in names
    ensures ScratchName(mode, f) !in ArchiveNames(mode, wd, names)
    ensures ArchiveNames(mode, wd, names + {f}) == ArchiveNames(mode, wd, names)[ScratchName(mode, f) := wd[f]]
  {
    ScratchNameInjective(mode);
    var before := ArchiveNames(mode, wd, names);
    var after := ArchiveNames(mode, wd, names + {f});
    var t := ScratchName(mode, f);
    assert t in after && after[t] == wd[f];
    forall x | x in after && x != t ensures x in before && after[x] == before[x] {
      var g :| g in names + {f} && ScratchName(mode, g) == x;
      assert g in names;
    }
    forall x | x in before ensures x in after && after[x] == before[x] {
      var g :| g in names && ScratchName(mode, g) == x;
      assert g in names + {f};
    }
    assert after == before[t := wd[f]];
  }

  /** What the relocated directory holds outside its two folders. */
  lemma RelocatedTop(mode: int, variant: string, wd: Dir, done: set<string>)
    requires ValidLabel(variant) && Workspace(variant, wd) && NoCollision(mode, variant, wd, done)
    ensures var moved := Relocated(mode, variant, wd, done);
      && Workspace(variant, moved)
      && moved[variant].items == wd[variant].items + Kept(variant, wd, done) + CsvRenamed(mode, variant, wd, done)
      && moved[ScratchDir(variant)].items == wd[ScratchDir(variant)].items + Archived(mode, variant, wd, done)
      && (forall k :: k != variant && k != ScratchDir(variant) ==>
            (k in moved <==> k in wd && !(k in done && Moves(variant, k))))
      && (forall k :: k in moved && k != variant && k != ScratchDir(variant) ==> moved[k] == wd[k])
  {
  }

  lemma DropThenSet(t: Dir, f: string, a: string, b: string, x: Entry, y: Entry)
    requires f != a && f != b
    ensures (t - {f})[a := x][b := y] == t[a := x][b := y] - {f}
  {
  }

  // Step on an arbitrary directory, one lemma per rule.

  lemma StepJunkOn(mode: int, variant: string, x: Dir, f: string)
    requires ValidLabel(variant) && Workspace(variant, x)
    requires Classify(variant, f) == Junk && f in x && x[f].File?
    ensures Step(mode, variant, x, f) == Ok(x - {f})
  {
  }

  lemma StepKeepOn(mode: int, variant: string, x: Dir, f: string)
    requires ValidLabel(variant) && Workspace(variant, x)
    requires KeepsName(variant, f) && f in x && f !in x[variant].items
    ensures Step(mode, variant, x, f) == Ok((x - {f})[variant := Folder(x[variant].items[f := x[f]])])
  {
  }

  lemma StepCsvOn(mode: int, variant: string, x: Dir, f: string)
    requires ValidLabel(variant) && Workspace(variant, x)
    requires Classify(variant, f) == CsvToResults && f in x
    requires CsvName(variant) !in x && CsvName(variant) !in x[variant].items
    ensures Step(mode, variant, x, f) ==
      Ok((x - {f})[variant := Folder(x[variant].items[CsvName(variant) := x[f]])])
  {
    LabelNames(variant);
    var c := CsvName(variant);
    var renamed := (x - {f})[c := x[f]];
    assert Rename(x, f, c) == Ok(renamed);
    assert renamed - {c} == x - {f};
  }

  lemma StepScratchOn(mode: int, variant: string, x: Dir, f: string)
    requires ValidLabel(variant) && Workspace(variant, x)
    requires Classify(variant, f) == ToScratch && f in x
    requires var items := x[ScratchDir(variant)].items;
      ScratchName(mode, f) in items ==> mode != 1 && items[ScratchName(mode, f)].File? && x[f].File?
    ensures Step(mode, variant, x, f) ==
      Ok((x - {f})[ScratchDir(variant) := Folder(x[ScratchDir(variant)].items[ScratchName(mode, f) := x[f]])])
  {
  }

  // Relocated with one more name handled, one lemma per rule.

  lemma RelocatedAddLeave(mode: int, variant: string, wd: Dir, done: set<string>, f: string)
    requires ValidLabel(variant) && Workspace(variant, wd)
    requires f !in done && NoCollision(mode, variant, wd, done + {f})
    requires Classify(variant, f) == Leave
    ensures NoCollision(mode, variant, wd, done)
    ensures Relocated(mode, variant, wd, done + {f}) == Relocated(mode, variant, wd, done)
  {
    NoCollisionSubset(mode, variant, wd, done, done + {f});
    TopAdd(variant, wd, done, f);
    KeptAdd(variant, wd, done, f);
    CsvAdd(mode, variant, wd, done, f);
    ArchivedAdd(mode, variant, wd, done, f);
  }

  lemma RelocatedAddJunk(mode: int, variant: string, wd: Dir, done: set<string>, f: string)
    requires ValidLabel(variant) && Workspace(variant, wd)
    requires f !in done && NoCollision(mode, variant, wd, done + {f})
    requires Classify(variant, f) == Junk
    ensures NoCollision(mode, variant, wd, done)
    ensures Relocated(mode, variant, wd, done + {f}) == Relocated(mode, variant, wd, done) - {f}
  {
    NoCollisionSubset(mode, variant, wd, done, done + {f});
    var sd := ScratchDir(variant);
    var t := TopAfter(variant, wd, done);
    var a := Folder(wd[variant].items + Kept(variant, wd, done) + CsvRenamed(mode, variant, wd, done));
    var b := Folder(wd[sd].items + Archived(mode, variant, wd, done));
    assert Relocated(mode, variant, wd, done) == t[variant := a][sd := b];
    TopAdd(variant, wd, done, f);
    KeptAdd(variant, wd, done, f);
    CsvAdd(mode, variant, wd, done, f);
    ArchivedAdd(mode, variant, wd, done, f);
    assert Relocated(mode, variant, wd, done + {f}) == (t - {f})[variant := a][sd := b];
    DropThenSet(t, f, variant, sd, a, b);
  }

  lemma CsvKeys(mode: int, variant: string, wd: Dir, done: set<string>)
    requires Workspace(variant, wd) && NoCollision(mode, variant, wd, done)
    ensures forall k :: k in CsvRenamed(mode, variant, wd, done) ==> k == CsvName(variant) && k !in wd
  {
  }

  lemma UnionUpdate(a: map<string, Entry>, b: map<string, Entry>, c: map<string, Entry>, k: string, v: Entry)
    requires k !in c
    ensures a + b[k := v] + c == (a + b + c)[k := v]
  {
  }

  lemma UnionUpdateLast(a: map<string, Entry>, b: map<string, Entry>, k: string, v: Entry)
    ensures a + b[k := v] == (a + b)[k := v]
  {
  }

  lemma ResultsShape(t: Dir, f: string, a: string, b: string, x: map<string, Entry>, y: Entry, k: string, v: Entry)
    requires f != a && f != b && a != b
    ensures var r := t[a := Folder(x)][b := y];
      (t - {f})[a := Folder(x[k := v])][b := y] == (r - {f})[a := Folder(r[a].items[k := v])]
  {
  }

  lemma ScratchShape(t: Dir, f: string, a: string, b: string, x: Entry, y: map<string, Entry>, k: string, v: Entry)
    requires f != a && f != b && a != b
    ensures var r := t[a := x][b := Folder(y)];
      (t - {f})[a := x][b := Folder(y[k := v])] == (r - {f})[b := Folder(r[b].items[k := v])]
  {
  }

  lemma RelocatedAddKeep(mode: int, variant: string, wd: Dir, done: set<string>, f: string)
    requires ValidLabel(variant) && Workspace(variant, wd)
    requires f !in done && NoCollision(mode, variant, wd, done + {f})
    requires KeepsName(variant, f)
    ensures NoCollision(mode, variant, wd, done)
    ensures var r := Relocated(mode, variant, wd, done);
      Relocated(mode, variant, wd, done + {f}) == (r - {f})[variant := Folder(r[variant].items[f := wd[f]])]
  {
    NoCollisionSubset(mode, variant, wd, done, done + {f});
    LabelNames(variant);
    var sd := ScratchDir(variant);
    var t := TopAfter(variant, wd, done);
    var kept := Kept(variant, wd, done);
    var csv := CsvRenamed(mode, variant, wd, done);
    var results := wd[variant].items;
    var y := Folder(wd[sd].items + Archived(mode, variant, wd, done));
    TopAdd(variant, wd, done, f);
    KeptAdd(variant, wd, done, f);
    CsvAdd(mode, variant, wd, done, f);
    ArchivedAdd(mode, variant, wd, done, f);
    CsvKeys(mode, variant, wd, done);
    UnionUpdate(results, kept, csv, f, wd[f]);
    ResultsShape(t, f, variant, sd, results + kept + csv, y, f, wd[f]);
  }

  lemma RelocatedAddCsv(mode: int, variant: string, wd: Dir, done: set<string>, f: string)
    requires ValidLabel(variant) && Workspace(variant, wd)
    requires f !in done && NoCollision(mode, variant, wd, done + {f})
    requires Classify(variant, f) == CsvToResults
    ensures NoCollision(mode, variant, wd, done)
    ensures var r := Relocated(mode, variant, wd, done);
      Relocated(mode, variant, wd, done + {f}) ==
        (r - {f})[variant := Folder(r[variant].items[CsvName(variant) := wd[f]])]
  {
    NoCollisionSubset(mode, variant, wd, done, done + {f});
    LabelNames(variant);
    var sd := ScratchDir(variant);
    var t := TopAfter(variant, wd, done);
    var kept := Kept(variant, wd, done);
    var results := wd[variant].items;
    var y := Folder(wd[sd].items + Archived(mode, variant, wd, done));
    TopAdd(variant, wd, done, f);
    KeptAdd(variant, wd, done, f);
    CsvAdd(mode, variant, wd, done, f);
    ArchivedAdd(mode, variant, wd, done, f);
    UnionUpdateLast(results + kept, map[], CsvName(variant), wd[f]);
    ResultsShape(t, f, variant, sd, results + kept + map[], y, CsvName(variant), wd[f]);
  }

  lemma RelocatedAddScratch(mode: int, variant: string, wd: Dir, done: set<string>, f: string)
    requires ValidLabel(variant) && Workspace(variant, wd)
    requires f !in done && NoCollision(mode, variant, wd, done + {f})
    requires Classify(variant, f) == ToScratch
    ensures NoCollision(mode, variant, wd, done)
    ensures var r := Relocated(mode, variant, wd, done);
      var sd := ScratchDir(variant);
      Relocated(mode, variant, wd, done + {f}) ==
        (r - {f})[sd := Folder(r[sd].items[ScratchName(mode, f) := wd[f]])]
  {
    NoCollisionSubset(mode, variant, wd, done, done + {f});
    LabelNames(variant);
    var sd := ScratchDir(variant);
    var t := TopAfter(variant, wd, done);
    var archived := Archived(mode, variant, wd, done);
    var scratch := wd[sd].items;
    var x := Folder(wd[variant].items + Kept(variant, wd, done) + CsvRenamed(mode, variant, wd, done));
    TopAdd(variant, wd, done, f);
    KeptAdd(variant, wd, done, f);
    CsvAdd(mode, variant, wd, done, f);
    ArchivedAdd(mode, variant, wd, done, f);
    UnionUpdateLast(scratch, archived, ScratchName(mode, f), wd[f]);
    ScratchShape(t, f, variant, sd, x, scratch + archived, ScratchName(mode, f), wd[f]);
  }

  /** Handling the next name of the listing extends the relocation by it. */
  lemma StepExtends(mode: int, variant: string, wd: Dir, done: set<string>, f: string)
    requires ValidLabel(variant) && Workspace(variant, wd)
    requires f !in done && NoCollision(mode, variant, wd, done + {f})
    ensures NoCollision(mode, variant, wd, done)
    ensures Workspace(variant, Relocated(mode, variant, wd, done))
    ensures Step(mode, variant, Relocated(mode, variant, wd, done), f) == Ok(Relocated(mode, variant, wd, done + {f}))
  {
    LabelNames(variant);
    NoCollisionSubset(mode, variant, wd, done, done + {f});
    RelocatedTop(mode, variant, wd, done);
    var x := Relocated(mode, variant, wd, done);
    var sd := ScratchDir(variant);
    match Classify(variant, f)
    case Leave =>
      RelocatedAddLeave(mode, variant, wd, done, f);
    case Junk =>
      RelocatedAddJunk(mode, variant, wd, done, f);
      StepJunkOn(mode, variant, x, f);
    case ToResults =>
      RelocatedAddKeep(mode, variant, wd, done, f);
      KeptAdd(variant, wd, done, f);
      CsvKeys(mode, variant, wd, done);
      StepKeepOn(mode, variant, x, f);
    case DatToResults =>
      RelocatedAddKeep(mode, variant, wd, done, f);
      KeptAdd(variant, wd, done, f);
      CsvKeys(mode, variant, wd, done);
      StepKeepOn(mode, variant, x, f);
    case CsvToResults =>
      RelocatedAddCsv(mode, variant, wd, done, f);
      CsvAdd(mode, variant, wd, done, f);
      StepCsvOn(mode, variant, x, f);
    case ToScratch =>
      RelocatedAddScratch(mode, variant, wd, done, f);
      ArchivedAdd(mode, variant, wd, done, f);
      StepScratchOn(mode, variant, x, f);
  }

  /** The names a listing holds. */
  ghost function Names(files: seq<string>): set<string> {
    set i | 0 <= i < |files| :: files[i]
  }

  lemma NamesCons(files: seq<string>)
    requires files != []
    ensures Names(files) == {files[0]} + Names(files[1..])
  {
    forall x | x in Names(files) ensures x in {files[0]} + Names(files[1..]) {
      var i :| 0 <= i < |files| && files[i] == x;
      if i > 0 {
        assert files[1..][i - 1] == x;
      }
    }
    forall x | x in Names(files[1..]) ensures x in Names(files) {
      var i :| 0 <= i < |files[1..]| && files[1..][i] == x;
      assert files[i + 1] == x;
    }
  }

  /** Running the rest of the listing over a partly relocated directory
      completes the relocation, whatever the order of the listing. */
  lemma {:induction false} PassFrom(mode: int, variant: string, wd: Dir, done: set<string>, files: seq<string>)
    requires ValidLabel(variant) && Workspace(variant, wd)
    requires forall i, j :: 0 <= i < j < |files| ==> files[i] != files[j]
    requires forall i :: 0 <= i < |files| ==> files[i] !in done
    requires NoCollision(mode, variant, wd, done + Names(files))
    ensures NoCollision(mode, variant, wd, done)
    ensures Workspace(variant, Relocated(mode, variant, wd, done))
    ensures Pass(mode, variant, Relocated(mode, variant, wd, done), files) ==
      Ok(Relocated(mode, variant, wd, done + Names(files)))
    decreases |files|
  {
    NoCollisionSubset(mode, variant, wd, done, done + Names(files));
    RelocatedTop(mode, variant, wd, done);
    if files == [] {
      assert done + Names(files) == done;
    } else {
      var f := files[0];
      ListingTail(done, files);
      NoCollisionSubset(mode, variant, wd, done + {f}, done + Names(files));
      StepExtends(mode, variant, wd, done, f);
      PassFrom(mode, variant, wd, done + {f}, files[1..]);
      assert Pass(mode, variant, Relocated(mode, variant, wd, done), files) ==
        Pass(mode, variant, Relocated(mode, variant, wd, done + {f}), files[1..]);
    }
  }

  /** Handling the head of a duplicate-free listing moves it to the done
      names. */
  lemma ListingTail(done: set<string>, files: seq<string>)
    requires files != []
    requires forall i, j :: 0 <= i < j < |files| ==> files[i] != files[j]
    requires forall i :: 0 <= i < |files| ==> files[i] !in done
    ensures files[0] !in done
    ensures done + Names(files) == (done + {files[0]}) + Names(files[1..])
    ensures forall i, j :: 0 <= i < j < |files[1..]| ==> files[1..][i] != files[1..][j]
    ensures forall i :: 0 <= i < |files[1..]| ==> files[1..][i] !in done + {files[0]}
  {
    NamesCons(files);
    forall i | 0 <= i < |files[1..]| ensures files[1..][i] !in done + {files[0]} {
      assert files[1..][i] == files[i + 1];
    }
    forall i, j | 0 <= i < j < |files[1..]| ensures files[1..][i] != files[1..][j] {
      assert files[1..][i] == files[i + 1] && files[1..][j] == files[j + 1];
    }
  }

  /** With no competing destinations, `move_files` leaves the working
      directory in the state `Relocated` describes. */
  lemma MoveFilesRelocates(mode: int, variant: string, wd: Dir, files: seq<string>)
    requires ValidLabel(variant)
    requires mode != 1 ==> Workspace(variant, wd)
    requires IsListing(files, wd.Keys + {variant, ScratchDir(variant)})
    requires Preparable(mode, variant, wd)
    requires NoCollision(mode, variant, Prepared(mode, variant, wd), Prepared(mode, variant, wd).Keys)
    ensures var prepared := Prepared(mode, variant, wd);
      MoveFiles(mode, variant, wd, files) == Ok(Relocated(mode, variant, prepared, prepared.Keys))
  {
    var prepared := Prepared(mode, variant, wd);
    MoveFilesIsPass(mode, variant, wd, files);
    PassRelocates(mode, variant, prepared, files);
  }

  lemma MoveFilesIsPass(mode: int, variant: string, wd: Dir, files: seq<string>)
    requires ValidLabel(variant)
    requires mode != 1 ==> Workspace(variant, wd)
    requires IsListing(files, wd.Keys + {variant, ScratchDir(variant)})
    requires Preparable(mode, variant, wd)
    ensures var prepared := Prepared(mode, variant, wd);
      IsListing(files, prepared.Keys) && MoveFiles(mode, variant, wd, files) == Pass(mode, variant, prepared, files)
  {
  }

  lemma PassRelocates(mode: int, variant: string, wd: Dir, files: seq<string>)
    requires ValidLabel(variant) && Workspace(variant, wd)
    requires IsListing(files, wd.Keys)
    requires NoCollision(mode, variant, wd, wd.Keys)
    ensures Pass(mode, variant, wd, files) == Ok(Relocated(mode, variant, wd, wd.Keys))
  {
    assert Names(files) == wd.Keys;
    assert {} + Names(files) == wd.Keys;
    RelocatedNothing(mode, variant, wd);
    PassFrom(mode, variant, wd, {}, files);
  }

  /** The order in which the directory is listed does not matter. */
  lemma MoveFilesOrderFree(mode: int, variant: string, wd: Dir, files: seq<string>, other: seq<string>)
    requires ValidLabel(variant)
    requires mode != 1 ==> Workspace(variant, wd)
    requires IsListing(files, wd.Keys + {variant, ScratchDir(variant)})
    requires IsListing(other, wd.Keys + {variant, ScratchDir(variant)})
    requires Preparable(mode, variant, wd)
    requires NoCollision(mode, variant, Prepared(mode, variant, wd), Prepared(mode, variant, wd).Keys)
    ensures MoveFiles(mode, variant, wd, files) == MoveFiles(mode, variant, wd, other)
  {
    MoveFilesRelocates(mode, variant, wd, files);
    MoveFilesRelocates(mode, variant, wd, other);
  }
}
