/** `simulate`: the command line of the building simulator and the answers
    fed to its text-mode prompts, assembled from five fragments. */
module Script {
  import opened Results
  import opened Text
  import opened Domains

  /** What `simulate` hands to the engine: its arguments, the text on its
      standard input, and the file that receives its standard output. */
  datatype Invocation = Invocation(args: seq<string>, input: string, scratch: string)

  /** The run's settings, step counts and dates already rendered as text. */
  datatype Settings = Settings(
    config: string,        // configuration file name without extension
    variant: string,       // label of this run's results
    buildingSteps: string, // building time steps per hour
    plantSteps: string,    // plant time steps per building time step
    fromDay: string, fromMonth: string,
    toDay: string, toMonth: string,
    startup: string)       // start-up period in days

  /** The answers after the time steps: no hourly integration, default save
      levels, start, accept the control file, describe the result set,
      continue, save, leave the menu and the module. */
  function Closing(variant: string): seq<string> {
    ["N", "*", "*", "s", "Y", "Run:" + variant, "Y", "Y", "-", "-"]
  }

  /** Every answer the engine is given, one per prompt, in order. */
  function ScriptLines(d: Domain, s: Settings): seq<string> {
    Opening
    + LibraryNames(d, s.variant)
    + Period(s)
    + TimeStepLines(d, s.buildingSteps, s.plantSteps)
    + Closing(s.variant)
  }

  /** Answers before the library names: accept the configuration file,
      then choose to simulate. */
  const Opening: seq<string> := ["", "c"]

  /** Answers after the library names: first day and month, last day and
      month, start-up days. */
  function Period(s: Settings): seq<string> {
    [s.fromDay + " " + s.fromMonth, s.toDay + " " + s.toMonth, s.startup]
  }

  /** `simulate(key, ...)` up to the point where the engine is started. A key
      outside the table leaves the error string of `rf_dms` where bytes are
      expected, so assembly stops before the scratch file is opened or the
      engine run. */
  function Simulate(key: int, s: Settings): (r: Result<Invocation, string>)
    ensures r.Err? <==> DomainOf(key).None?
    ensures r.Err? ==> r.error == RfError
    ensures r.Ok? ==> r.value.args == ["bps", "-file", s.config + ".cfg", "-mode", "text"]
    ensures r.Ok? ==> r.value.scratch == s.variant + "_bps.scratch"
    ensures r.Ok? ==> r.value.input == JoinLines(ScriptLines(DomainOf(key).value, s))
  {
    var libraries :- RfDms(key, s.variant);
    var steps := TsDms(key, s.buildingSteps, s.plantSteps).value;
    FragmentsJoin(DomainOf(key).value, s);
    Ok(Invocation(
      ["bps", "-file", s.config + ".cfg", "-mode", "text"],
      JoinLines(Opening) + libraries + JoinLines(Period(s)) + steps + JoinLines(Closing(s.variant)),
      s.variant + "_bps.scratch"))
  }

  lemma FragmentsJoin(d: Domain, s: Settings)
    ensures JoinLines(ScriptLines(d, s)) ==
      JoinLines(Opening) + JoinLines(LibraryNames(d, s.variant)) + JoinLines(Period(s))
      + JoinLines(TimeStepLines(d, s.buildingSteps, s.plantSteps)) + JoinLines(Closing(s.variant))
  {
    var names := LibraryNames(d, s.variant);
    var steps := TimeStepLines(d, s.buildingSteps, s.plantSteps);
    assert ScriptLines(d, s) == Opening + names + Period(s) + steps + Closing(s.variant);
    JoinLinesAppend(Opening, names);
    JoinLinesAppend(Opening + names, Period(s));
    JoinLinesAppend(Opening + names + Period(s), steps);
    JoinLinesAppend(Opening + names + Period(s) + steps, Closing(s.variant));
  }

  /** All settings that end up in the answers fit on one line each. */
  predicate SingleLine(s: Settings) {
    && NoNewline(s.variant) && NoNewline(s.buildingSteps) && NoNewline(s.plantSteps)
    && NoNewline(s.fromDay + " " + s.fromMonth) && NoNewline(s.toDay + " " + s.toMonth)
    && NoNewline(s.startup)
  }

  lemma FragmentsNoNewline(d: Domain, s: Settings)
    requires SingleLine(s)
    ensures NoNewlines(Opening) && NoNewlines(Period(s))
    ensures NoNewlines(TimeStepLines(d, s.buildingSteps, s.plantSteps))
    ensures NoNewlines(Closing(s.variant))
  {
    var closing := Closing(s.variant);
    NoNewlineConcat("Run:", s.variant);
    forall i | 0 <= i < |closing| ensures NoNewline(closing[i]) {
      if i != 5 {
        assert '\n' !in closing[i];
        NewlineFree(closing[i]);
      }
    }
  }

  /** Reading the script back line by line gives the answers one per prompt. */
  lemma SimulateReadBack(key: int, s: Settings)
    requires 1 <= key <= 4 && SingleLine(s)
    ensures Simulate(key, s).Ok?
    ensures SplitLines(Simulate(key, s).value.input) == ScriptLines(DomainOf(key).value, s)
  {
    var d := DomainOf(key).value;
    var names := LibraryNames(d, s.variant);
    var steps := TimeStepLines(d, s.buildingSteps, s.plantSteps);
    LibraryNamesNoNewline(d, s.variant);
    FragmentsNoNewline(d, s);
    NoNewlinesAppend(Opening, names);
    NoNewlinesAppend(Opening + names, Period(s));
    NoNewlinesAppend(Opening + names + Period(s), steps);
    NoNewlinesAppend(Opening + names + Period(s) + steps, Closing(s.variant));
    SplitJoin(ScriptLines(d, s));
  }

  /** Where each answer sits: the library names after the two opening
      answers, then the period, then the building time steps, then the
      plant time steps only with plant, and the closing answers last. */
  lemma ScriptLayout(d: Domain, s: Settings)
    ensures var lines := ScriptLines(d, s);
      var e := |ResultExtensions(d)|;
      var p := if d.HasPlant() then 1 else 0;
      && |lines| == 16 + e + p
      && lines[..2] == Opening
      && lines[2..2 + e] == LibraryNames(d, s.variant)
      && lines[2 + e..5 + e] == Period(s)
      && lines[5 + e] == s.buildingSteps
      && (d.HasPlant() ==> lines[6 + e] == s.plantSteps)
      && lines[6 + e + p] == "N"
      && lines[6 + e + p..] == Closing(s.variant)
      && lines[|lines| - 2..] == ["-", "-"]
  {
    var names := LibraryNames(d, s.variant);
    var steps := TimeStepLines(d, s.buildingSteps, s.plantSteps);
    var head := Opening + names + Period(s);
    var lines := ScriptLines(d, s);
    var e := |names|;
    assert lines == head + steps + Closing(s.variant);
    assert |head| == 5 + e;
    assert head[..2] == Opening && head[2..2 + e] == names && head[2 + e..] == Period(s);
    assert lines[..5 + e] == head;
    assert lines[5 + e..5 + e + |steps|] == steps;
    assert lines[5 + e + |steps|..] == Closing(s.variant);
  }

  lemma ScriptEnds(d: Domain, s: Settings)
    ensures EndsWith(JoinLines(ScriptLines(d, s)), "-\n-\n")
  {
    var lines := ScriptLines(d, s);
    var head := Opening + LibraryNames(d, s.variant) + Period(s) + TimeStepLines(d, s.buildingSteps, s.plantSteps);
    assert lines == head + Closing(s.variant);
    assert lines[|lines| - 2] == "-" && lines[|lines| - 1] == "-";
    JoinEndsWith(lines, "-", "-");
  }

  /** The script closes by leaving the menu and then the module. */
  lemma SimulateEnds(key: int, s: Settings)
    requires 1 <= key <= 4
    ensures EndsWith(Simulate(key, s).value.input, "-\n-\n")
  {
    ScriptEnds(DomainOf(key).value, s);
  }
}
