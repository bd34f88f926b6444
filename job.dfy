/**
 * One job of calculate_aerodynamics.py: `process_airfoil(file)`. It derives
 * the airfoil name, writes a command script for XFOIL, runs the solver, and
 * then either quarantines the geometry file (five failure exits) or returns
 * the polar table with two added columns. The working directory is a
 * `Workspace`: a map from relative paths to file contents. The solver run is
 * an oracle value saying how the run ended and what it left behind.
 */
module Job {
  import opened Wrappers
  import opened Text
  import opened Anomaly

  type Files = map<string, string>

  const AirfoilFolder := "airfoil_data"
  const ResultFolder := "xfoil_results"
  const StrangeFolder := "strange_data"

  /** `str(re)`, `str(mach)` and the sweep `alpha_start alpha_end alpha_step` as Python formats them. */
  const ReynoldsText := "1000000.0"
  const MachText := "0.15"
  const SweepText := "-5 15 1"
  const IterationCap := "200"

  /** A polar report shorter than this many bytes is treated as missing. */
  const MinPolarSize := 200

  /** `file.lower().endswith(".dat")` */
  predicate IsDatName(file: string)
  {
    EndsWith(Lower(file), ".dat")
  }

  /** `os.path.splitext(file)[0]`: the airfoil name. */
  function Stem(file: string): string
  {
    SplitExtRoot(file)
  }

  function GeometryPath(file: string): string { Join(AirfoilFolder, file) }
  function StrangePath(file: string): string { Join(StrangeFolder, file) }
  function PolarPath(stem: string): string { Join(ResultFolder, stem + "_polar.txt") }
  function TempPath(stem: string): string { "temp_" + stem + ".inp" }

  /** The lines of the command script, the first one empty. */
  function CommandLines(file: string): seq<string>
  {
    [ "",
      "LOAD " + GeometryPath(file),
      "PANE",
      "OPER",
      "VISC " + ReynoldsText,
      "MACH " + MachText,
      "ITER " + IterationCap,
      "PACC",
      PolarPath(Stem(file)),
      "",
      "ASEQ " + SweepText,
      "PACC",
      "QUIT" ]
  }

  function CommandScript(file: string): string
  {
    Unlines(CommandLines(file))
  }

  /** How `pd.read_csv` on the polar report ended. */
  datatype Parse = ParseError | Parsed(rows: Table)

  /**
   * How one `subprocess.run` of XFOIL ended. `Finished` carries the polar
   * report the run left behind (`None`: it wrote none) and what reading it
   * back gives.
   */
  datatype SolverRun = TimedOut | Faulted | Finished(polar: Option<string>, parse: Parse)

  /** The five failure exits, in source order. */
  datatype Failure = Timeout | InvocationError | NoValidOutput | ParseFailed | Abnormal

  /** A row of the returned table: the parsed row, `Airfoil` and `CL/CD`. */
  datatype OutRow = OutRow(row: Row, airfoil: string, ratio: real)

  /**
   * What `process_airfoil` ends with: `None` for a non-.dat name or after a
   * quarantine, the table on success, or an exception when `shutil.move`
   * finds no geometry file to move.
   */
  datatype Outcome =
    | NotDat
    | Quarantined(why: Failure)
    | Crashed(why: Failure)
    | Succeeded(table: seq<OutRow>)

  datatype Step = Step(outcome: Outcome, files: Files)

  /** A row that may enter the dataset: complete, positive drag, bounded and correct CL/CD. */
  predicate ValidOutRow(r: OutRow)
  {
    Complete(r.row) && r.row.cd.value > 0.0 && r.ratio == Ratio(r.row) && Abs(r.ratio) <= MaxLiftDragRatio
  }

  /** `df["Airfoil"] = airfoil_name; df["CL/CD"] = df["CL"] / df["CD"]` */
  function AddColumns(t: Table, stem: string): (out: seq<OutRow>)
    requires !IsAbnormal(t)
    ensures |out| == |t|
    ensures forall i :: 0 <= i < |t| ==> out[i].row == t[i] && out[i].airfoil == stem
    ensures forall i :: 0 <= i < |t| ==> ValidOutRow(out[i])
  {
    NormalTableHasRatios(t);
    seq(|t|, i requires 0 <= i < |t| => OutRow(t[i], stem, Ratio(t[i])))
  }

  /** `not os.path.exists(polar_file) or os.path.getsize(polar_file) < 200`, negated. */
  predicate UsableOutput(files: Files, stem: string)
  {
    PolarPath(stem) in files && |files[PolarPath(stem)]| >= MinPolarSize
  }

  /**
   * A failure exit: `shutil.move` of the geometry file into strange_data
   * (an exception, leaving the temp script behind, when there is nothing to
   * move), then removal of the temp script.
   */
  function QuarantineStep(files: Files, file: string, stem: string, why: Failure): Step
  {
    var src := GeometryPath(file);
    if src !in files then Step(Crashed(why), files)
    else
      var moved := (files - {src})[StrangePath(file) := files[src]];
      Step(Quarantined(why), moved - {TempPath(stem)})
  }

  /**
   * The files once the temp script is written and the solver has run: a
   * finished run that wrote a polar report leaves it at the polar path.
   */
  function AfterRun(files: Files, file: string, run: SolverRun): Files
  {
    var scripted := files[TempPath(Stem(file)) := CommandScript(file)];
    if run.Finished? && run.polar.Some? then scripted[PolarPath(Stem(file)) := run.polar.value] else scripted
  }

  /** Which of the five failure exits fires first, if any. */
  function FailureOf(after: Files, stem: string, run: SolverRun): Option<Failure>
  {
    match run
    case TimedOut => Some(Timeout)
    case Faulted => Some(InvocationError)
    case Finished(_, parse) =>
      if !UsableOutput(after, stem) then Some(NoValidOutput)
      else if parse.ParseError? then Some(ParseFailed)
      else if IsAbnormal(parse.rows) then Some(Abnormal)
      else None
  }

  /** `process_airfoil(file)` run against the files `files` with solver outcome `run`. */
  function Process(files: Files, file: string, run: SolverRun): Step
  {
    if !IsDatName(file) then Step(NotDat, files)
    else
      var stem := Stem(file);
      var after := AfterRun(files, file, run);
      match FailureOf(after, stem, run)
      case Some(why) => QuarantineStep(after, file, stem, why)
      case None => Step(Succeeded(AddColumns(run.parse.rows, stem)), after - {TempPath(stem)})
  }

  /** The working directory of the batch, and the dataset last saved to xfoil_data.csv. */
  class Workspace {
    var files: Files
    var savedCsv: Option<seq<OutRow>>

    constructor (files0: Files, saved0: Option<seq<OutRow>>)
      ensures files == files0 && savedCsv == saved0
    {
      files := files0;
      savedCsv := saved0;
    }

    /** `open(path, "w").write(text)` */
    method WriteText(path: string, text: string)
      modifies this`files
      ensures files == old(files)[path := text]
    {
      files := files[path := text];
    }

    /** `if os.path.exists(path): os.remove(path)` */
    method RemoveIfExists(path: string)
      modifies this`files
      ensures files == old(files) - {path}
    {
      if path in files {
        files := files - {path};
      }
    }

    /** `shutil.move(src, dst)`; `moved` is false where it raises for a missing `src`. */
    method Move(src: string, dst: string) returns (moved: bool)
      modifies this`files
      ensures moved == (src in old(files))
      ensures files == if moved then (old(files) - {src})[dst := old(files)[src]] else old(files)
    {
      moved := src in files;
      if moved {
        var content := files[src];
        files := (files - {src})[dst := content];
      }
    }

    /** `df.to_csv(output_csv)` */
    method SaveCsv(rows: seq<OutRow>)
      modifies this`savedCsv
      ensures savedCsv == Some(rows)
    {
      savedCsv := Some(rows);
    }
  }

  method Quarantine(ws: Workspace, file: string, stem: string, why: Failure) returns (outcome: Outcome)
    modifies ws`files
    ensures Step(outcome, ws.files) == QuarantineStep(old(ws.files), file, stem, why)
  {
    var moved := ws.Move(GeometryPath(file), StrangePath(file));
    if !moved {
      return Crashed(why);
    }
    ws.RemoveIfExists(TempPath(stem));
    outcome := Quarantined(why);
  }

  /**
   * `process_airfoil(file)`. `input` is the text handed to XFOIL on its
   * standard input (the temp script read back), `None` when no run happens.
   */
  method ProcessAirfoil(ws: Workspace, file: string, run: SolverRun) returns (outcome: Outcome, input: Option<string>)
    modifies ws`files
    ensures Step(outcome, ws.files) == Process(old(ws.files), file, run)
    ensures input == if IsDatName(file) then Some(CommandScript(file)) else None
  {
    if !IsDatName(file) {
      return NotDat, None;
    }
    var airfoilName := Stem(file);
    var polarFile := PolarPath(airfoilName);
    var tempInp := TempPath(airfoilName);
    ws.WriteText(tempInp, CommandScript(file));
    input := Some(ws.files[tempInp]);
    match run {
      case TimedOut =>
        outcome := Quarantine(ws, file, airfoilName, Timeout);
      case Faulted =>
        outcome := Quarantine(ws, file, airfoilName, InvocationError);
      case Finished(polar, parse) =>
        if polar.Some? {
          ws.WriteText(polarFile, polar.value);
        }
        if polarFile !in ws.files || |ws.files[polarFile]| < MinPolarSize {
          outcome := Quarantine(ws, file, airfoilName, NoValidOutput);
        } else if parse.ParseError? {
          outcome := Quarantine(ws, file, airfoilName, ParseFailed);
        } else if IsAbnormal(parse.rows) {
          outcome := Quarantine(ws, file, airfoilName, Abnormal);
        } else {
          var table := AddColumns(parse.rows, airfoilName);
          ws.RemoveIfExists(tempInp);
          outcome := Succeeded(table);
        }
    }
  }

  // ---------------------------------------------------------------------------
  // Properties of one job

  /** Names pass the filter on their last four characters alone, in any letter case. */
  lemma DatNameIgnoresCase(file: string)
    ensures IsDatName(file) <==>
      && |file| >= 4
      && file[|file| - 4] == '.'
      && file[|file| - 3] in "dD"
      && file[|file| - 2] in "aA"
      && file[|file| - 1] in "tT"
  {
    var low := Lower(file);
    if |file| >= 4 {
      var n := |file|;
      assert low[n - 4..] == [low[n - 4], low[n - 3], low[n - 2], low[n - 1]];
    }
  }

  /**
   * For a directory entry (no separator) with a .dat name, the airfoil name
   * is the name without its last four characters, unless only dots precede
   * them (".dat" keeps its whole name).
   */
  lemma StemOfDatName(file: string)
    requires IsDatName(file) && '/' !in file
    ensures (exists k :: 0 <= k < |file| - 4 && file[k] != '.') ==> Stem(file) == file[..|file| - 4]
    ensures (forall k :: 0 <= k < |file| - 4 ==> file[k] == '.') ==> Stem(file) == file
  {
    DatNameIgnoresCase(file);
    var n := |file|;
    assert LastIndexOf(file, '/') == -1;
    var dot := LastIndexOf(file, '.');
    assert file[n - 3] != '.' && file[n - 2] != '.' && file[n - 1] != '.';
    assert dot == n - 4;
  }

  /** XFOIL reads back, line by line, exactly the command lines in order. */
  lemma ScriptLines(file: string)
    requires '\n' !in file
    ensures SplitLines(CommandScript(file)) == CommandLines(file)
  {
    var lines := CommandLines(file);
    var stem := Stem(file);
    assert forall j :: 0 <= j < |stem| ==> stem[j] == file[j];
    assert '\n' !in stem;
    assert '\n' !in PolarPath(stem);
    assert '\n' !in "LOAD " + GeometryPath(file);
    SplitLinesOfUnlines(lines);
  }

  /** The four paths a job touches are pairwise different (they differ in their first character). */
  lemma JobPathsDistinct(file: string, stem: string)
    ensures GeometryPath(file)[0] == 'a' && StrangePath(file)[0] == 's'
    ensures PolarPath(stem)[0] == 'x' && TempPath(stem)[0] == 't'
    ensures GeometryPath(file) != StrangePath(file) && GeometryPath(file) != TempPath(stem)
    ensures GeometryPath(file) != PolarPath(stem) && StrangePath(file) != TempPath(stem)
    ensures StrangePath(file) != PolarPath(stem) && TempPath(stem) != PolarPath(stem)
  {
  }

  /** A name that is not .dat returns `None` and touches no file. */
  lemma NonDatUntouched(files: Files, file: string, run: SolverRun)
    requires !IsDatName(file)
    ensures Process(files, file, run) == Step(NotDat, files)
  {
  }

  /**
   * Writing the script and running the solver changes only the temp script
   * (which then holds the command script) and the polar report.
   */
  lemma AfterRunChanges(files: Files, file: string, run: SolverRun)
    ensures var after := AfterRun(files, file, run);
      && TempPath(Stem(file)) in after && after[TempPath(Stem(file))] == CommandScript(file)
      && forall p :: p != TempPath(Stem(file)) && p != PolarPath(Stem(file)) ==>
           (p in after <==> p in files) && (p in files ==> after[p] == files[p])
  {
    JobPathsDistinct(file, Stem(file));
  }

  /**
   * A failure exit with the geometry file present moves it to strange_data
   * under the same name and removes the temp script; nothing else changes.
   */
  lemma QuarantineMoves(files: Files, file: string, stem: string, why: Failure)
    requires GeometryPath(file) in files
    ensures var s := QuarantineStep(files, file, stem, why);
      && s.outcome == Quarantined(why)
      && GeometryPath(file) !in s.files
      && StrangePath(file) in s.files && s.files[StrangePath(file)] == files[GeometryPath(file)]
      && TempPath(stem) !in s.files
      && forall p :: p != GeometryPath(file) && p != StrangePath(file) && p != TempPath(stem) ==>
           (p in s.files <==> p in files) && (p in files ==> s.files[p] == files[p])
  {
    JobPathsDistinct(file, stem);
  }

  /**
   * With the geometry file present, the five failure exits each fire on
   * their own condition, in order, and each one moves the geometry file to
   * strange_data under the same name and leaves no temp script.
   */
  lemma FailureExits(files: Files, file: string, run: SolverRun)
    requires IsDatName(file) && GeometryPath(file) in files
    ensures var s := Process(files, file, run);
      var stem := Stem(file);
      var after := AfterRun(files, file, run);
      && (s.outcome == Quarantined(Timeout) <==> run.TimedOut?)
      && (s.outcome == Quarantined(InvocationError) <==> run.Faulted?)
      && (s.outcome == Quarantined(NoValidOutput) <==> run.Finished? && !UsableOutput(after, stem))
      && (s.outcome == Quarantined(ParseFailed) <==> run.Finished? && UsableOutput(after, stem) && run.parse.ParseError?)
      && (s.outcome == Quarantined(Abnormal) <==>
            run.Finished? && UsableOutput(after, stem) && run.parse.Parsed? && IsAbnormal(run.parse.rows))
      && (s.outcome.Succeeded? || s.outcome.Quarantined?)
      && (s.outcome.Quarantined? ==>
            && GeometryPath(file) !in s.files
            && StrangePath(file) in s.files && s.files[StrangePath(file)] == files[GeometryPath(file)]
            && TempPath(stem) !in s.files)
  {
    var stem := Stem(file);
    var after := AfterRun(files, file, run);
    AfterRunChanges(files, file, run);
    JobPathsDistinct(file, stem);
    assert GeometryPath(file) in after && after[GeometryPath(file)] == files[GeometryPath(file)];
    var why := FailureOf(after, stem, run);
    if why.Some? {
      QuarantineMoves(after, file, stem, why.value);
    }
  }

  /** Where the usable-output test looks: the report the run wrote, else one already on disk. */
  lemma UsableOutputAfterRun(files: Files, file: string, run: SolverRun)
    requires run.Finished?
    ensures UsableOutput(AfterRun(files, file, run), Stem(file)) <==>
      if run.polar.Some? then |run.polar.value| >= MinPolarSize else UsableOutput(files, Stem(file))
  {
    AfterRunChanges(files, file, run);
  }

  /**
   * On success the table keeps the parsed rows in order and adds the airfoil
   * name and CL/CD to each; the temp script is gone and the geometry file
   * stays where it was.
   */
  lemma SuccessExit(files: Files, file: string, run: SolverRun)
    requires Process(files, file, run).outcome.Succeeded?
    ensures var s := Process(files, file, run);
      var stem := Stem(file);
      && IsDatName(file)
      && run.Finished? && UsableOutput(AfterRun(files, file, run), stem)
      && run.parse.Parsed? && !IsAbnormal(run.parse.rows)
      && |s.outcome.table| == |run.parse.rows|
      && (forall i :: 0 <= i < |run.parse.rows| ==>
            && s.outcome.table[i].row == run.parse.rows[i]
            && s.outcome.table[i].airfoil == stem
            && s.outcome.table[i].ratio == run.parse.rows[i].cl.value / run.parse.rows[i].cd.value)
      && TempPath(stem) !in s.files
      && (GeometryPath(file) in s.files <==> GeometryPath(file) in files)
      && (GeometryPath(file) in files ==> s.files[GeometryPath(file)] == files[GeometryPath(file)])
  {
    var stem := Stem(file);
    AfterRunChanges(files, file, run);
    JobPathsDistinct(file, stem);
    assert FailureOf(AfterRun(files, file, run), stem, run).None?;
  }

  /**
   * When the geometry file is already gone, a failure exit raises from
   * `shutil.move` before the cleanup: the temp script stays, holding the
   * command script.
   */
  lemma MissingGeometryLeavesScript(files: Files, file: string, run: SolverRun)
    requires IsDatName(file) && GeometryPath(file) !in files
    ensures var s := Process(files, file, run);
      && (s.outcome.Crashed? || s.outcome.Succeeded?)
      && (s.outcome.Succeeded? <==>
            run.Finished? && UsableOutput(AfterRun(files, file, run), Stem(file))
            && run.parse.Parsed? && !IsAbnormal(run.parse.rows))
      && (s.outcome.Crashed? ==> TempPath(Stem(file)) in s.files && s.files[TempPath(Stem(file))] == CommandScript(file))
  {
    var stem := Stem(file);
    var after := AfterRun(files, file, run);
    AfterRunChanges(files, file, run);
    JobPathsDistinct(file, stem);
    assert GeometryPath(file) !in after;
  }

  /** A job changes no file other than its geometry file, its quarantine copy, its temp script and its polar report. */
  lemma OnlyOwnPathsChange(files: Files, file: string, run: SolverRun, p: string)
    requires p != GeometryPath(file) && p != StrangePath(file)
    requires p != TempPath(Stem(file)) && p != PolarPath(Stem(file))
    ensures var s := Process(files, file, run);
      (p in s.files <==> p in files) && (p in files ==> s.files[p] == files[p])
  {
    if IsDatName(file) {
      var stem := Stem(file);
      var after := AfterRun(files, file, run);
      AfterRunChanges(files, file, run);
      var why := FailureOf(after, stem, run);
      if why.Some? && GeometryPath(file) in after {
        QuarantineMoves(after, file, stem, why.value);
      }
    }
  }

  /** Every row a job returns may enter the dataset. */
  lemma SucceededRowsValid(files: Files, file: string, run: SolverRun)
    requires Process(files, file, run).outcome.Succeeded?
    ensures forall r :: r in Process(files, file, run).outcome.table ==> ValidOutRow(r)
  {
    var stem := Stem(file);
    assert FailureOf(AfterRun(files, file, run), stem, run).None?;
    var t := AddColumns(run.parse.rows, stem);
    assert Process(files, file, run).outcome.table == t;
    forall r | r in t
      ensures ValidOutRow(r)
    {
      var i :| 0 <= i < |t| && t[i] == r;
    }
  }
}
