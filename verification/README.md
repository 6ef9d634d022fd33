# esprsim core in Dafny

esprsim drives the ESP-r building simulator (`bps`) and its model editor
(`prj`). It feeds them keystroke scripts on standard input, then tidies the
working directory. This project models the pure and nearly pure parts of
`src/esprsim/espr_sim.py` and proves their properties:

- **Domain tables** (`Domains`): `rf_dms`, `ts_dms` and `list_dms`. A domain
  key 1..4 selects building-only, building + air flow network, building +
  plant, or all three.
- **Script assembly in `simulate`** (`Script`): the command line, the five
  answer fragments in order, and the scratch file name.
- **Loop-built editor scripts** (`Keystrokes`):
  - `set_mgp`: one edit block per ground temperature profile, in ascending order.
  - `set_con`: one confirmation per affected surface.
- **Post-run file handling**:
  - `remove_results` and `list_of_files` (`Cleanup`);
  - `move_files` (`Relocate`, with the order-independent description and its proof in `Relocation`);
  - `move_clm_files` (`Climate`).

The working directory is an immutable map from names to entries
(`WorkDir.Entry`: a plain file or a folder of entries). Each `os`/`shutil`
call is a function that returns the new directory or the exception it raises.

- `os.remove`, `os.rename`, `shutil.move` and `shutil.rmtree` + `os.mkdir`
  become `WorkDir.Remove`, `Rename`, `MoveInto`/`MoveTo` and `MakeFresh`.
- `os.listdir` returns names in an unspecified order. Each pass therefore
  takes the listing as a parameter, constrained only to hold every name
  exactly once (`WorkDir.IsListing`).
- The step counts and dates passed to `simulate` are taken as already
  rendered text.
- The surface count of `set_con` is an integer parameter.

Modules: `Results` (Result/Option), `Text` (lines, prefixes, decimal
rendering), `WorkDir`, `Domains`, `Script`, `Keystrokes`, `Cleanup`,
`Relocate`, `Relocation`, `Climate`.

Where the docstring of `simulate` (line 133) lists key 4's files as `.res`,
`.plr`, `.mfr`, the model follows the code at lines 101-103, which emits
`.res`, `.mfr`, `.plr`.

## Model

| member | source | states |
|---|---|---|
| Domains.DomainOf | src/esprsim/espr_sim.py:91-106 | exactly the keys 1..4 select a domain, and the selected domain maps back to its key |
| Domains.RfDms | src/esprsim/espr_sim.py:91-106 | for a valid key the text is one result-library name per result file of the domain: `.res`, then `.mfr` with air flow, then `.plr` with plant. Any other key yields the error string |
| Domains.RfDmsLines | src/esprsim/espr_sim.py:91-106 | reading the text back line by line gives exactly the library names in that order |
| Domains.TsDms | src/esprsim/espr_sim.py:108-121 | for a valid key the text is the building time steps, followed by the plant time steps only for keys 3 and 4. Any other key yields the error string |
| Domains.TsDmsLines | src/esprsim/espr_sim.py:108-121 | keys 1-2 give one line (the building steps); keys 3-4 give two (building steps, then plant steps) |
| Domains.ListDmsAsWritten | src/esprsim/espr_sim.py:78-89 | `list_dms` as written: any key outside 1..4 gives "Error in dms", and keys 1 and 2 print exactly the corrected summary (keys 3 and 4 are the findings below) |
| Domains.ListDms | src/esprsim/espr_sim.py:78-89 | corrected summary: one line per result file of the domain, labelled by what the file holds. Other keys give "Error in dms" |
| Domains.ListDmsLines | src/esprsim/espr_sim.py:78-89 | each line of the corrected summary is the file's label followed by its library name, in result-file order |
| Domains.ListDmsKey3RunsTogether | src/esprsim/espr_sim.py:83-84 | as written, key 3 prints both files on one line; the corrected summary has two lines |
| Domains.ListDmsKey4Lines | src/esprsim/espr_sim.py:85-87 | as written, key 4 reads back as three lines: the building results line, `.mfr` under the plant results label, and `.plr` under the air flow results label |
| Domains.ListDmsKey4Swapped | src/esprsim/espr_sim.py:85-87 | for every single-line variant, the as-written key 4 summary differs from the corrected one |
| Script.Simulate | src/esprsim/espr_sim.py:162-206 | a key outside 1..4 stops assembly with the rf_dms error before any file is opened or the engine run. Otherwise `bps` is invoked on `<config>.cfg` in text mode with stdout to `<variant>_bps.scratch`. Its input answers, in order: the opening, the library names, the period, the time steps, then the closing answers |
| Script.SimulateReadBack | src/esprsim/espr_sim.py:171-202 | with single-line settings, splitting the input into lines recovers exactly that answer sequence |
| Script.ScriptLayout | src/esprsim/espr_sim.py:171-202 | positions of the answers: library names from line 2, building steps after the period, the plant answer only with plant, then "N", and the last two answers are "-", "-"; total length 16 + files (+1 with plant) |
| Script.SimulateEnds | src/esprsim/espr_sim.py:184-194 | the script ends in "-\n-\n" |
| Keystrokes.SetMgp | src/esprsim/espr_sim.py:329-368 | the first profile number in 1..len(gtp) missing from the map is the failure. Otherwise `prj` gets the context answers, one block per profile 1..len(gtp), and the closing answers, with stdout to `<config>_set_mgp.scratch` |
| Keystrokes.MgpProfilesAscending | src/esprsim/espr_sim.py:346-350 | block n spans answers 5n-3..5n+1. Its number is answer 5n-1 and reads back as n; answers 5n and 5n+1 are that profile's January-June and July-December values. The script has 5·len(gtp) + 8 answers |
| Keystrokes.MgpReadBack | src/esprsim/espr_sim.py:337-364 | with single-line profiles, the input splits back into exactly the answer sequence |
| Keystrokes.ProfileAt | src/esprsim/espr_sim.py:346-350 | answer 5(n-1)+j of the profile blocks is answer j of profile n's block |
| Keystrokes.Confirmations | src/esprsim/espr_sim.py:590-592 | `range(count)` confirmations: exactly max(count, 0) answers, all "y" |
| Keystrokes.SetCon | src/esprsim/espr_sim.py:568-610 | `prj` on `<config>.cfg` gets the search-and-replace head, the confirmations and the save-and-quit tail, with stdout to `<config>_set_roomcon_<new_con>.scratch` |
| Keystrokes.ConConfirmations | src/esprsim/espr_sim.py:574-602 | the editor reads the 11 head answers, exactly max(count, 0) "y" answers, then the 6 tail answers |
| Cleanup.RemoveIfPresent | src/esprsim/espr_sim.py:692-693 | deleting an existing name fails only on a folder; an absent name leaves the directory as it is |
| Cleanup.RemoveResultsAsWritten | src/esprsim/espr_sim.py:689-701 | as written, a successful call never changes whether `<variant>.contents` exists |
| Cleanup.ContentsConditionNever | src/esprsim/espr_sim.py:699 | the chained comparison at line 699 is false for every mode |
| Cleanup.AsWrittenKeepsContents | src/esprsim/espr_sim.py:692-701 | as written, every mode behaves like the corrected code in mode RUNCLEAN |
| Cleanup.StaleContentsSurvive | src/esprsim/espr_sim.py:699-701 | in mode "RUN" the code as written keeps `ctl.contents`, which the corrected code deletes |
| Cleanup.RemoveResults | src/esprsim/espr_sim.py:689-701 | corrected: fails iff one of `.res`, `.mfr`, `.plr` (and `.contents` unless the mode is RUNCLEAN) is a folder. On success the result is the directory minus exactly those names, nothing else changed |
| Cleanup.RemoveResultsIdempotent | src/esprsim/espr_sim.py:692-701 | a second call succeeds and changes nothing |
| Cleanup.ListOfFiles | src/esprsim/espr_sim.py:677-684 | the text is " path/f" for each listed plain file ending in the extension, in listing order |
| Cleanup.SelectedExactly | src/esprsim/espr_sim.py:681-683 | `path/f` is listed iff `f` is a plain file of the folder that ends with the extension |
| Cleanup.SelectedDistinct | src/esprsim/espr_sim.py:681-683 | no file is listed twice |
| WorkDir.Remove | src/esprsim/espr_sim.py:740-743 | `os.remove` succeeds exactly on an existing plain file and drops only that name |
| WorkDir.Rename | src/esprsim/espr_sim.py:730 | `os.rename` succeeds iff the source exists and the target is absent or replaceable; the entry moves to the new name |
| WorkDir.MoveInto | src/esprsim/espr_sim.py:728 | `shutil.move` into a folder. Fails iff the source is missing or the name is taken inside. A folder moved onto itself changes nothing; otherwise the entry moves in under its own name |
| WorkDir.MoveTo | src/esprsim/espr_sim.py:738 | `shutil.move` to `folder/target`. When the target is absent or a plain file, it succeeds iff the source exists and, when the target is a plain file, the source is a plain file too (a folder never replaces a file); the entry lands as `target` |
| WorkDir.MakeFresh | src/esprsim/espr_sim.py:711-722 | recreating a folder fails iff the name is a plain file; otherwise the folder is empty afterwards |
| Relocate.Classify | src/esprsim/espr_sim.py:727-743 | the rule a name gets is the first that matches it, in the order `<variant>.` prefix, `.csv`, `.dat`, `.scratch`, `fort.`/`graphic.` prefix; the result's own test (`Relocate.Matches`) holds and every earlier rule's test fails, and a name no test matches is left in place |
| Relocate.ScratchNameInjective | src/esprsim/espr_sim.py:734-738 | two scratch files never get the same archive name |
| Relocate.Step | src/esprsim/espr_sim.py:726-743 | one listing entry: a name matched by a rule is gone from the top level, an unmatched name leaves the directory unchanged, and both folders survive. No name is added at the top level, and every surviving entry other than the two folders is unchanged. The `.csv` rule's rename can remove an existing top-level `<variant>.csv` |
| Relocate.Pass | src/esprsim/espr_sim.py:726-743 | the loop over the listing: on success both folders still exist and no name was added at the top level. Its outcome is characterised by `Relocate.PassSettles`, `Relocate.PassOverSettled` and `Relocation.PassFrom` |
| Relocate.Prepare | src/esprsim/espr_sim.py:711-722 | fails iff mode is 1 and a plain file holds one of the two folder names (`Preparable`); on success the result is `Prepared`, with both folders emptied in mode 1 and nothing changed in other modes |
| Relocate.MoveFiles | src/esprsim/espr_sim.py:707-743 | on success both folders exist and no top-level name matches any rule |
| Relocate.PassSettles | src/esprsim/espr_sim.py:726-743 | a pass over a listing holding every matched name leaves none behind |
| Relocate.PassOverSettled | src/esprsim/espr_sim.py:726-743 | a pass over names no rule matches changes nothing |
| Relocate.MoveFilesOverSettled | src/esprsim/espr_sim.py:707-743 | over a directory where no name matches a rule, the whole run only prepares the folders |
| Relocate.SettledRerun | src/esprsim/espr_sim.py:707-743 | rerunning over a settled directory (both folders present, no name matching a rule), which is what `Relocate.MoveFiles` guarantees of its result, succeeds with any listing. In a mode other than 1 nothing changes; in mode 1 only the two folders are emptied |
| Relocation.StepJunkOn | src/esprsim/espr_sim.py:740-743 | a `fort.`/`graphic.` plain file is deleted |
| Relocation.StepKeepOn | src/esprsim/espr_sim.py:727-733 | a `<variant>.` or `.dat` name moves into the results folder under its own name |
| Relocation.StepCsvOn | src/esprsim/espr_sim.py:729-731 | a `.csv` file lands in the results folder as `<variant>.csv` |
| Relocation.StepScratchOn | src/esprsim/espr_sim.py:734-738 | a `.scratch` file lands in the archive under its archive name, replacing an archived file there |
| Relocation.StepExtends | src/esprsim/espr_sim.py:726-743 | with no competing destinations, handling one more listed name extends the relocation by exactly that name |
| Relocation.PassFrom | src/esprsim/espr_sim.py:724-743 | the rest of the listing, in any order, completes the relocation |
| Relocation.MoveFilesRelocates | src/esprsim/espr_sim.py:707-743 | with no competing destinations, `move_files` yields `Relocated`. Unmatched names stay put; `<variant>.*`, `.dat` and the `.csv` (as `<variant>.csv`) join the results folder; scratch files join the archive under their archive names; junk is gone |
| Relocation.MoveFilesOrderFree | src/esprsim/espr_sim.py:724-726 | under the same condition, the listing order does not affect the outcome |
| Climate.MoveClmFiles | src/esprsim/espr_sim.py:757-773 | fails iff `<clm>_eval` is a plain file. Otherwise unprefixed names stay, and `<clm>_eval` holds exactly the original entries named `<clm>_…`, its own old contents dropped |
| Climate.ClmRelocatedShape | src/esprsim/espr_sim.py:771-773 | unprefixed entries are untouched, the only prefixed top-level name left is the evaluation folder, and the folder's names are exactly the prefixed originals |
| Climate.ClmRerunClears | src/esprsim/espr_sim.py:761-773 | a second pass only empties the evaluation folder |
| Text.DecimalRoundTrip | src/esprsim/espr_sim.py:348 | `str(n)` of a profile number reads back as n |
| Text.SplitJoin | src/esprsim/espr_sim.py:196-202 | answers without newlines, joined one per line, split back into the same answers |

## Left out

- Subprocess calls, scratch-file writing and the "CPU time:" scan (lines 204-214), the move to `../tmp` (215-216), and all console output. The model stops at the arguments, the input text and the scratch file name handed to `run`.
- The prints at lines 150-159. `list_dms` is modelled on its own, and the console lines are not. With both step counts given as text, line 159 multiplies two strings and raises for keys 3 and 4; with the plant count given as an integer it does not. The model takes both counts already rendered as text.
- UTF-8 encoding and decoding of the fragments: identity on the text, so the text is modelled directly.
- The shell commands of `set_clm` (277-287) and the `grep | cut | awk` surface count of `set_con` (558-565). The count is an integer parameter; parsing it with `int()` is not modelled.
- Flat keystroke builders without logic (`qa_report`, `set_ctl`, `set_spm`, `set_afn`, `set_plant`, `set_obs_dim`, `set_ctl_temp_setpt`), all of `espr_ms_sim.py`, `__init__.py` and `setup.py`.
- The commented-out moves of `out.xml`, `out.summary` and `out.dictionary` (745-752).
- Paths: every name is a top-level entry of the working directory.
  - `move_files` takes a nonempty, slash-free variant label whose two folder names no rule matches (`Relocate.ValidLabel`).
  - `move_clm_files` takes a slash-free climate label.
  - A variant label with a slash would reach into sub-folders in `remove_results`; the model treats `<variant>.res` as a plain top-level name.
- With mode ≠ 1, `move_files` requires both folders to exist. Without them `shutil.move` would rename a file to the folder's name, which is not modelled.
- `shutil.move` across file systems (copy and delete), symbolic links and case-insensitive file systems are not modelled.
- `MoveTo` models a folder already sitting at a scratch archive name, but `Relocation.NoCollision` excludes that case.
- `set_mgp` profiles always carry both halves of the year (`Keystrokes.GroundProfile`), so a profile dict missing `'JanJun'` or `'JulDez'` is not modelled.
- Cleanup.RemoveResults, Relocate.MoveFiles, Climate.MoveClmFiles: on an error the model returns only the exception and drops the partly changed directory, while the real directory keeps every change made before the raise. `remove_results` has already deleted the earlier names of lines 692-701. `move_files` has already moved or deleted every name listed before the failing one, and in mode 1 has already run `rmtree`. `move_clm_files` has already run `rmtree` before `os.mkdir` fails.
- Relocation.MoveFilesRelocates: proves the outcome only when no two names compete for a destination (`Relocation.NoCollision`). It does not prove that every collision makes the pass raise.
- `os.rename` and `shutil.move` raise on a missing source, and the model returns `NotFound` for it.
- In modes other than 1, every scratch file is archived with the suffix "2" unconditionally (lines 735-738), whether or not that name is already taken in the archive.

## Findings

| source | as written | input that shows it | evidently intended | confidence | as-written member | corrected member |
|---|---|---|---|---|---|---|
| src/esprsim/espr_sim.py:699 | `mode == 'RUNCLEAN' is False` is the chain `mode == 'RUNCLEAN' and 'RUNCLEAN' is False`, which is never true, so `<variant>.contents` is never deleted | variant "ctl", mode "RUN", a directory holding only `ctl.contents`: the file survives (`Cleanup.StaleContentsSurvive`) | `(mode == 'RUNCLEAN') is False`: delete the contents report unless the mode is RUNCLEAN | high; not executed | Cleanup.RemoveResultsAsWritten | Cleanup.RemoveResults |
| src/esprsim/espr_sim.py:83-84 | key 3 joins the building and plant lines with no newline | `list_dms(3, "ctl")` is a single line (`Domains.ListDmsKey3RunsTogether`) | one line per result file, as for keys 2 and 4 | high; not executed | Domains.ListDmsAsWritten | Domains.ListDms |
| src/esprsim/espr_sim.py:85-87 | key 4 prints `.mfr` under "plant results" and `.plr` under "air flow results" | `list_dms(4, "ctl")`, second line `plant results : ctl.mfr` (`Domains.ListDmsKey4Lines`, `Domains.ListDmsKey4Swapped`) | one of two readings. (a) `list_dms` swapped the labels: air flow results are in `.mfr` and plant results in `.plr`, as keys 2 and 3 print them; `Domains.ListDms` models this reading. (b) The comments at lines 101-103 label the second library plant results and the third mass flow results, as `list_dms` does; then the labels are right and `rf_dms` key 4 lists the extensions in the wrong order, which this model does not correct | low; not executed | Domains.ListDmsAsWritten | Domains.ListDms |
