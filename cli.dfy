/** The command-line front end (cli.py): the checks `parse_arguments` makes
    once optparse has read the options, and the choice of logger and of
    the progress stages that `main` makes before it builds the docs. */
module Cli {
  import opened Wrappers
  import Seqs
  import ConsoleLog

  /** The options as optparse leaves them: `verbose` and `quiet` count the
      `-v` and `-q` flags; `target` is None unless `-o` was given. */
  datatype RawOptions = RawOptions(
    action: string, target: Option<string>, inheritance: string,
    verbose: nat, quiet: nat, parse: bool, introspect: bool)

  /** The options `parse_arguments` returns. */
  datatype Options = Options(
    action: string, target: string, inheritance: string,
    verbosity: int, parse: bool, introspect: bool)

  const InheritanceStyles: set<string> := {"grouped", "listed", "included"}

  /** `parse_arguments` after `optparser.parse_args()`: the first failed
      check ends the run through `optparser.error` with its message;
      otherwise the verbosity is the `-v` count less the `-q` count, and the
      target defaults to the action's name. */
  function ParseArguments(raw: RawOptions, names: seq<string>): (r: Result<Options>)
    ensures r.Success? <==>
              names != [] && raw.inheritance in InheritanceStyles && (raw.parse || raw.introspect) &&
              !(raw.action == "text" && |names| > 1)
    ensures names == [] ==> r == Failure(ValueError("No names specified."))
    ensures names != [] && raw.inheritance !in InheritanceStyles ==>
              r == Failure(ValueError("Bad inheritance style.  Valid options are grouped, listed, and included."))
    ensures names != [] && raw.inheritance in InheritanceStyles && !raw.parse && !raw.introspect ==>
              r == Failure(ValueError("Invalid option combination: --parse-only and --introspect-only."))
    ensures names != [] && raw.inheritance in InheritanceStyles && (raw.parse || raw.introspect) &&
            raw.action == "text" && |names| > 1 ==>
              r == Failure(ValueError("--text option takes only one name."))
    ensures r.Success? ==>
              r.value.verbosity == raw.verbose - raw.quiet &&
              (raw.target.Some? ==> r.value.target == raw.target.value) &&
              (raw.target.None? ==> r.value.target == raw.action) &&
              r.value.action == raw.action && r.value.inheritance == raw.inheritance &&
              r.value.parse == raw.parse && r.value.introspect == raw.introspect
  {
    if names == [] then Failure(ValueError("No names specified."))
    else if raw.inheritance !in InheritanceStyles then
      Failure(ValueError("Bad inheritance style.  Valid options are grouped, listed, and included."))
    else if !raw.parse && !raw.introspect then
      Failure(ValueError("Invalid option combination: --parse-only and --introspect-only."))
    else if raw.action == "text" && |names| > 1 then Failure(ValueError("--text option takes only one name."))
    else
      var target := if raw.target.None? then raw.action else raw.target.value;
      Success(Options(raw.action, target, raw.inheritance, raw.verbose - raw.quiet, raw.parse, raw.introspect))
  }

  /** The stages of a run, with the weight `main` gives each: building,
      merging, linking imported variables, indexing, parsing docstrings,
      inheriting, sorting and grouping, and writing the output. */
  const StageWeights: seq<nat> := [40, 7, 1, 3, 30, 1, 2, 100]

  /** The weights of the stages `main` keeps: a parse-only run drops the
      merge; an introspect-only run drops the merge and the linking. */
  function Stages(parse: bool, introspect: bool): (r: seq<nat>)
    ensures 6 <= |r| <= |StageWeights| && r[0] == StageWeights[0] && r[|r| - 1] == StageWeights[|StageWeights| - 1]
  {
    var s := StageWeights;
    var s := if parse && !introspect then s[..1] + s[2..] else s;
    if introspect && !parse then s[..1] + s[3..] else s
  }

  /** Whether a run with these sources does stage `i`: merging needs both
      sources, and linking imported variables needs parsing. */
  predicate Runs(i: nat, parse: bool, introspect: bool) {
    (i == 1 ==> parse && introspect) && (i == 2 ==> parse)
  }

  /** The weights of the stages, in order, that the run does. */
  function Performed(parse: bool, introspect: bool, n: nat): seq<nat>
    requires n <= |StageWeights|
  {
    if n == 0 then []
    else Performed(parse, introspect, n - 1) + (if Runs(n - 1, parse, introspect) then [StageWeights[n - 1]] else [])
  }

  /** For every run the checks allow, the stage list is exactly the weights
      of the stages it does, starting with building and ending with
      writing. */
  lemma StagesPerformed(parse: bool, introspect: bool)
    requires parse || introspect
    ensures Stages(parse, introspect) == Performed(parse, introspect, |StageWeights|)
    ensures var s := Stages(parse, introspect); |s| >= 6 && s[0] == 40 && s[|s| - 1] == 100
  {
    PerformedTail(parse, introspect);
    if parse && introspect {
      PerformedHead(true, true, [40, 7, 1]);
    } else if parse {
      PerformedHead(true, false, [40, 1]);
      assert Stages(parse, introspect) == [40] + [1, 3, 30, 1, 2, 100];
    } else {
      PerformedHead(false, true, [40]);
      assert Stages(parse, introspect) == [40] + [3, 30, 1, 2, 100];
    }
  }

  /** The first three stages a run does. */
  lemma PerformedHead(parse: bool, introspect: bool, head: seq<nat>)
    requires head == if parse && introspect then [40, 7, 1] else if parse then [40, 1] else [40]
    ensures Performed(parse, introspect, 3) == head
  {
    var p1 := Performed(parse, introspect, 1);
    assert Performed(parse, introspect, 0) == [];
    assert p1 == [40];
    var p2 := Performed(parse, introspect, 2);
    assert p2 == if parse && introspect then [40, 7] else [40];
  }

  /** The stages from indexing on are done by every run. */
  lemma PerformedTail(parse: bool, introspect: bool)
    ensures Performed(parse, introspect, 8) == Performed(parse, introspect, 3) + [3, 30, 1, 2, 100]
  {
    var p3 := Performed(parse, introspect, 3);
    assert Performed(parse, introspect, 4) == p3 + [3];
    assert Performed(parse, introspect, 5) == p3 + [3, 30];
    assert Performed(parse, introspect, 6) == p3 + [3, 30, 1];
    assert Performed(parse, introspect, 7) == p3 + [3, 30, 1, 2];
  }

  /** The logger `main` sets up. */
  datatype LoggerChoice =
    | NoLogger
    | Console(verbosity: int)
    | Unified(verbosity: int, stages: seq<nat>)

  /** The start of `main`: text output uses introspection alone when both
      sources are on and has no logger; a verbosity above 1 gets the plain
      console logger; otherwise one bar is shared by the stages of the
      run. */
  function Setup(options: Options): (r: (Options, LoggerChoice))
    ensures r.0 == options.(parse := options.parse && !(options.action == "text" && options.introspect))
    ensures options.action == "text" <==> r.1 == NoLogger
    ensures options.action != "text" && options.verbosity > 1 ==> r.1 == Console(options.verbosity)
    ensures options.action != "text" && options.verbosity <= 1 ==>
              r.1 == Unified(options.verbosity, Stages(options.parse, options.introspect))
  {
    var options := if options.action == "text" && options.parse && options.introspect then options.(parse := false) else options;
    var logger :=
      if options.action == "text" then NoLogger
      else if options.verbosity > 1 then Console(options.verbosity)
      else Unified(options.verbosity, Stages(options.parse, options.introspect));
    (options, logger)
  }

  /** After the checks, every run the shared bar is used for has stages of
      positive total weight, so its fraction is always defined and runs from
      0 to 1. */
  lemma SetupStagesUsable(raw: RawOptions, names: seq<string>)
    requires ParseArguments(raw, names).Success?
    ensures var r := Setup(ParseArguments(raw, names).value);
            r.0.parse || r.0.introspect
    ensures var r := Setup(ParseArguments(raw, names).value);
            r.1.Unified? ==> r.1.stages != [] && Seqs.Sum(r.1.stages) > 0 &&
                             ConsoleLog.UnifiedFraction(r.1.stages, 1, 0.0) == Success(0.0) &&
                             ConsoleLog.UnifiedFraction(r.1.stages, |r.1.stages|, 1.0) == Success(1.0)
  {
    var o := ParseArguments(raw, names).value;
    var r := Setup(o);
    if r.1.Unified? {
      var s := r.1.stages;
      StagesPerformed(o.parse, o.introspect);
      ConsoleLog.UnifiedStagesSpan(s);
    }
  }
}
