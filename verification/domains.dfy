/** The simulation domains a model can involve, and the three tables keyed by
    them: result-library names (`rf_dms`), time-step answers (`ts_dms`) and
    the console summary of the result files (`list_dms`). */
module Domains {
  import opened Results
  import opened Text

  /** Building zones always; air flow network and plant optionally. */
  datatype Domain = Building | BuildingAirflow | BuildingPlant | BuildingAirflowPlant {
    predicate HasAirflow() {
      this == BuildingAirflow || this == BuildingAirflowPlant
    }
    predicate HasPlant() {
      this == BuildingPlant || this == BuildingAirflowPlant
    }
  }

  /** The integer key callers pass for a domain. */
  function KeyOf(d: Domain): int {
    match d
    case Building => 1
    case BuildingAirflow => 2
    case BuildingPlant => 3
    case BuildingAirflowPlant => 4
  }

  /** The domain a key selects, if any. */
  function DomainOf(key: int): (r: Option<Domain>)
    ensures r.Some? <==> 1 <= key <= 4
    ensures r.Some? ==> KeyOf(r.value) == key
  {
    if key == 1 then Some(Building)
    else if key == 2 then Some(BuildingAirflow)
    else if key == 3 then Some(BuildingPlant)
    else if key == 4 then Some(BuildingAirflowPlant)
    else None
  }

  lemma KeyRoundTrip(d: Domain)
    ensures DomainOf(KeyOf(d)) == Some(d)
  {
  }

  /** The result files the engine writes: zone results, mass flow results of
      the air flow network, plant results. */
  datatype Extension = Res | Mfr | Plr {
    function Suffix(): string {
      match this
      case Res => ".res"
      case Mfr => ".mfr"
      case Plr => ".plr"
    }
    /** Label of the summary line for this file. */
    function Label(): string {
      match this
      case Res => "\tbuilding results  : "
      case Mfr => "\tair flow results  : "
      case Plr => "\tplant results     : "
    }
  }

  /** Zone results always, then mass flow results with an air flow network,
      then plant results with plant. */
  function ResultExtensions(d: Domain): seq<Extension> {
    [Res] + (if d.HasAirflow() then [Mfr] else []) + (if d.HasPlant() then [Plr] else [])
  }

  /** The result-library names the engine asks for, one per result file. */
  function LibraryNames(d: Domain, variant: string): (names: seq<string>)
    ensures |names| == |ResultExtensions(d)|
  {
    seq(|ResultExtensions(d)|, i requires 0 <= i < |ResultExtensions(d)| => variant + ResultExtensions(d)[i].Suffix())
  }

  /** The time-step answers: building steps per hour, then plant steps per
      building step when the model has plant. */
  function TimeStepLines(d: Domain, buildingSteps: string, plantSteps: string): seq<string> {
    [buildingSteps] + (if d.HasPlant() then [plantSteps] else [])
  }

  const RfError := "Error in dms - rf"
  const TsError := "Error in dms - ts"
  const ListError := "Error in dms"

  /** The library names of each domain, spelled out. */
  lemma LibraryNamesOf(variant: string)
    ensures LibraryNames(Building, variant) == [variant + ".res"]
    ensures LibraryNames(BuildingAirflow, variant) == [variant + ".res", variant + ".mfr"]
    ensures LibraryNames(BuildingPlant, variant) == [variant + ".res", variant + ".plr"]
    ensures LibraryNames(BuildingAirflowPlant, variant) == [variant + ".res", variant + ".mfr", variant + ".plr"]
  {
  }

  /** `rf_dms(key, variant)`: the table as written, `Err` carrying the string
      returned for a key outside it. */
  function RfDms(key: int, variant: string): (r: Result<string, string>)
    ensures r.Err? <==> DomainOf(key).None?
    ensures r.Err? ==> r.error == RfError
    ensures r.Ok? ==> r.value == JoinLines(LibraryNames(DomainOf(key).value, variant))
  {
    var res, mfr, plr := variant + ".res", variant + ".mfr", variant + ".plr";
    LibraryNamesOf(variant);
    JoinFew(res, mfr, plr);
    JoinFew(res, plr, "");
    if key == 1 then Ok(res + "\n")
    else if key == 2 then Ok(res + "\n" + mfr + "\n")
    else if key == 3 then Ok(res + "\n" + plr + "\n")
    else if key == 4 then Ok(res + "\n" + mfr + "\n" + plr + "\n")
    else Err(RfError)
  }

  /** `ts_dms(key, buildingSteps, plantSteps)`, the step counts already
      rendered as text. */
  function TsDms(key: int, buildingSteps: string, plantSteps: string): (r: Result<string, string>)
    ensures r.Err? <==> DomainOf(key).None?
    ensures r.Err? ==> r.error == TsError
    ensures r.Ok? ==> r.value == JoinLines(TimeStepLines(DomainOf(key).value, buildingSteps, plantSteps))
  {
    JoinFew(buildingSteps, plantSteps, "");
    if key == 1 || key == 2 then Ok(buildingSteps + "\n")
    else if key == 3 || key == 4 then Ok(buildingSteps + "\n" + plantSteps + "\n")
    else Err(TsError)
  }

  lemma SuffixNoNewline(e: Extension)
    ensures NoNewline(e.Suffix()) && NoNewline(e.Label())
  {
    assert '\n' !in e.Suffix() && '\n' !in e.Label();
    NewlineFree(e.Suffix());
    NewlineFree(e.Label());
  }

  lemma LibraryNamesNoNewline(d: Domain, variant: string)
    requires NoNewline(variant)
    ensures NoNewlines(LibraryNames(d, variant))
  {
    var names := LibraryNames(d, variant);
    forall i | 0 <= i < |names| ensures NoNewline(names[i]) {
      SuffixNoNewline(ResultExtensions(d)[i]);
      NoNewlineConcat(variant, ResultExtensions(d)[i].Suffix());
    }
  }

  /** Every library name the table produces comes back out of its text, in
      the order of the result files. */
  lemma RfDmsLines(key: int, variant: string)
    requires 1 <= key <= 4 && NoNewline(variant)
    ensures RfDms(key, variant).Ok?
    ensures SplitLines(RfDms(key, variant).value) == LibraryNames(DomainOf(key).value, variant)
  {
    var d := DomainOf(key).value;
    LibraryNamesNoNewline(d, variant);
    SplitJoin(LibraryNames(d, variant));
  }

  /** The plant answer follows the building answer exactly for the plant
      domains. */
  lemma TsDmsLines(key: int, buildingSteps: string, plantSteps: string)
    requires 1 <= key <= 4 && NoNewline(buildingSteps) && NoNewline(plantSteps)
    ensures var lines := SplitLines(TsDms(key, buildingSteps, plantSteps).value);
      && 1 <= |lines| <= 2
      && lines[0] == buildingSteps
      && (|lines| == 2 <==> key == 3 || key == 4)
      && (|lines| == 2 ==> lines[1] == plantSteps)
  {
    SplitJoin(TimeStepLines(DomainOf(key).value, buildingSteps, plantSteps));
  }

  // The console summary.

  /** One correctly labelled summary line per result file. */
  function SummaryLines(d: Domain, variant: string): (lines: seq<string>)
    ensures |lines| == |ResultExtensions(d)|
  {
    seq(|ResultExtensions(d)|, i requires 0 <= i < |ResultExtensions(d)| =>
      ResultExtensions(d)[i].Label() + variant + ResultExtensions(d)[i].Suffix())
  }

  /** The summary line of each file, and the summary of each domain, spelled
      out. */
  lemma SummaryLinesOf(variant: string)
    ensures SummaryLines(Building, variant) == [Res.Label() + variant + ".res"]
    ensures SummaryLines(BuildingAirflow, variant) ==
      [Res.Label() + variant + ".res", Mfr.Label() + variant + ".mfr"]
    ensures SummaryLines(BuildingPlant, variant) ==
      [Res.Label() + variant + ".res", Plr.Label() + variant + ".plr"]
    ensures SummaryLines(BuildingAirflowPlant, variant) ==
      [Res.Label() + variant + ".res", Mfr.Label() + variant + ".mfr", Plr.Label() + variant + ".plr"]
  {
  }

  /** `list_dms(key, variant)` as written. */
  function ListDmsAsWritten(key: int, variant: string): (r: string)
    ensures DomainOf(key).None? ==> r == ListError
    ensures key == 1 || key == 2 ==> r == ListDms(key, variant)
  {
    var res := Res.Label() + variant + ".res";
    if key == 1 then res
    else if key == 2 then res + "\n" + Mfr.Label() + variant + ".mfr"
    else if key == 3 then res + Plr.Label() + variant + ".plr"
    else if key == 4 then res + "\n" + (Plr.Label() + variant + ".mfr") + "\n" + (Mfr.Label() + variant + ".plr")
    else ListError
  }

  /** `list_dms` with the separator of key 3 restored and the labels of key 4
      matched to their files. */
  function ListDms(key: int, variant: string): (r: string)
    ensures DomainOf(key).None? ==> r == ListError
    ensures DomainOf(key).Some? ==> r + "\n" == JoinLines(SummaryLines(DomainOf(key).value, variant))
  {
    var res, mfr, plr := Res.Label() + variant + ".res", Mfr.Label() + variant + ".mfr", Plr.Label() + variant + ".plr";
    SummaryLinesOf(variant);
    JoinFew(res, mfr, plr);
    JoinFew(res, plr, "");
    if key == 1 then res
    else if key == 2 then res + "\n" + mfr
    else if key == 3 then res + "\n" + plr
    else if key == 4 then res + "\n" + mfr + "\n" + plr
    else ListError
  }

  /** A summary line, under any label, has no newline when the variant has
      none. */
  lemma SummaryLineNoNewline(tag: Extension, e: Extension, variant: string)
    requires NoNewline(variant)
    ensures NoNewline(tag.Label() + variant + e.Suffix())
  {
    SuffixNoNewline(tag);
    SuffixNoNewline(e);
    NoNewlineConcat(tag.Label(), variant);
    NoNewlineConcat(tag.Label() + variant, e.Suffix());
  }

  /** The corrected summary names every result file of the domain on a line of
      its own, under its own label. */
  lemma ListDmsLines(key: int, variant: string)
    requires 1 <= key <= 4 && NoNewline(variant)
    ensures var d := DomainOf(key).value;
      var lines := SplitLines(ListDms(key, variant) + "\n");
      && |lines| == |ResultExtensions(d)|
      && forall i :: 0 <= i < |lines| ==>
           lines[i] == ResultExtensions(d)[i].Label() + LibraryNames(d, variant)[i]
  {
    var d := DomainOf(key).value;
    var exts := ResultExtensions(d);
    var lines := SummaryLines(d, variant);
    assert ListDms(key, variant) + "\n" == JoinLines(lines);
    forall i | 0 <= i < |lines| ensures NoNewline(lines[i]) {
      SummaryLineNoNewline(exts[i], exts[i], variant);
    }
    SplitJoin(lines);
    forall i | 0 <= i < |lines| ensures lines[i] == exts[i].Label() + LibraryNames(d, variant)[i] {
      assert LibraryNames(d, variant)[i] == variant + exts[i].Suffix();
      assert exts[i].Label() + variant + exts[i].Suffix() == exts[i].Label() + (variant + exts[i].Suffix());
    }
  }

  /** Key 3 as written prints both file names on a single line, where the
      corrected summary has two. */
  lemma ListDmsKey3RunsTogether(variant: string)
    requires NoNewline(variant)
    ensures NoNewline(ListDmsAsWritten(3, variant))
    ensures |SplitLines(ListDms(3, variant) + "\n")| == 2
  {
    var res, plr := Res.Label() + variant + ".res", Plr.Label() + variant + ".plr";
    SummaryLineNoNewline(Res, Res, variant);
    SummaryLineNoNewline(Plr, Plr, variant);
    NoNewlineConcat(res, plr);
    assert ListDmsAsWritten(3, variant) == res + plr;
    ListDmsLines(3, variant);
  }

  lemma LabelsDiffer()
    ensures |Plr.Label()| == |Mfr.Label()| && Plr.Label() != Mfr.Label()
  {
    assert Plr.Label()[2] != Mfr.Label()[2];
  }

  /** The lines key 4 prints as written. */
  lemma ListDmsKey4Lines(variant: string)
    requires NoNewline(variant)
    ensures SplitLines(ListDmsAsWritten(4, variant) + "\n") ==
      [Res.Label() + variant + ".res", Plr.Label() + variant + ".mfr", Mfr.Label() + variant + ".plr"]
  {
    var a, b, c := Res.Label() + variant + ".res", Plr.Label() + variant + ".mfr", Mfr.Label() + variant + ".plr";
    var lines := [a, b, c];
    JoinFew(a, b, c);
    assert ListDmsAsWritten(4, variant) + "\n" == JoinLines(lines);
    SummaryLineNoNewline(Res, Res, variant);
    SummaryLineNoNewline(Plr, Mfr, variant);
    SummaryLineNoNewline(Mfr, Plr, variant);
    assert NoNewlines(lines);
    SplitJoin(lines);
  }

  /** Key 4 as written labels the mass flow file as plant results and the
      plant file as air flow results. */
  lemma ListDmsKey4Swapped(variant: string)
    requires NoNewline(variant)
    ensures ListDmsAsWritten(4, variant) != ListDms(4, variant)
  {
    ListDmsKey4Lines(variant);
    var file := variant + ".mfr";
    var written := Plr.Label() + variant + ".mfr";
    assert written == Plr.Label() + file;
    ListDmsLines(4, variant);
    var corrected := SplitLines(ListDms(4, variant) + "\n")[1];
    assert corrected == Mfr.Label() + file;
    LabelsDiffer();
    PrefixesDiffer(Mfr.Label(), Plr.Label(), file, file);
  }
}
