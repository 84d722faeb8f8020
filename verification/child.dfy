/**
 * What a forked child does before `execvp` (smallsh.c:410-578), as a plan of
 * intended calls that is a function of the background flag and the two
 * redirection paths, and the run of such a plan given what each call
 * returns. The calls themselves (sigaction, open, dup2, close, execvp) are
 * not modelled.
 */
module ChildSetup {
  import opened Wrappers

  datatype Disposition = Default | Ignored

  /** Standard input (descriptor 0) or standard output (descriptor 1). */
  datatype Side = Input | Output

  datatype OpenFlag = ReadOnly | WriteOnly | Create | Truncate

  datatype Step =
    | ResetSigint
    | Redirect(side: Side, path: string, named: bool)
    | Exec(argv: seq<string>)

  const NullDevice := "/dev/null"
  /** The permission bits passed when the output file is created: octal 0644. */
  const OutputMode := 6 * 8 * 8 + 4 * 8 + 4

  /** The descriptor `dup2` redirects: 0 for input, 1 for output (smallsh.c:443, 480, 517, 551). */
  function TargetFd(side: Side): (fd: nat)
    ensures fd == if side == Input then 0 else 1
  {
    if side == Input then 0 else 1
  }

  /** The flags of each `open`: smallsh.c:426, 463, 504, 538. */
  function Flags(step: Step): (flags: set<OpenFlag>)
    requires step.Redirect?
    ensures step.side == Input ==> flags == {ReadOnly}
    ensures step.side == Output && step.named ==> flags == {WriteOnly, Create, Truncate}
    ensures step.side == Output && !step.named ==> flags == {WriteOnly}
  {
    if step.side == Input then {ReadOnly}
    else if step.named then {WriteOnly, Create, Truncate}
    else {WriteOnly}
  }

  /** Only the named output file is opened with a creation mode. */
  function Mode(step: Step): (mode: Option<int>)
    requires step.Redirect?
    ensures mode.Some? <==> step.side == Output && step.named
    ensures mode.Some? ==> mode.value == OutputMode
  {
    if step.side == Output && step.named then Some(OutputMode) else None
  }

  /**
   * The calls in order: SIGINT back to its default in a foreground child;
   * the input file onto descriptor 0; the output file onto descriptor 1; in a
   * background child, `/dev/null` for each side that has no file; then exec.
   */
  function Plan(background: bool, fileIn: Option<string>, fileOut: Option<string>, argv: seq<string>): (plan: seq<Step>)
    ensures WellFormed(plan) && plan[|plan| - 1] == Exec(argv)
  {
    Setup(background, fileIn, fileOut) + [Exec(argv)]
  }

  function Setup(background: bool, fileIn: Option<string>, fileOut: Option<string>): (steps: seq<Step>)
    ensures forall i :: 0 <= i < |steps| ==> !steps[i].Exec?
  {
    (if !background then [ResetSigint] else [])
    + ((if fileIn.Some? then [Redirect(Input, fileIn.value, true)] else [])
    + ((if fileOut.Some? then [Redirect(Output, fileOut.value, true)] else [])
    + ((if background && fileIn.None? then [Redirect(Input, NullDevice, false)] else [])
    + (if background && fileOut.None? then [Redirect(Output, NullDevice, false)] else []))))
  }

  /** A plan ends with its one exec. */
  predicate WellFormed(plan: seq<Step>) {
    |plan| > 0 && plan[|plan| - 1].Exec? && forall i :: 0 <= i < |plan| - 1 ==> !plan[i].Exec?
  }

  /** Only a foreground child resets SIGINT, and does so first. */
  lemma PlanResetsSigintInForeground(background: bool, fileIn: Option<string>, fileOut: Option<string>, argv: seq<string>)
    ensures var plan := Plan(background, fileIn, fileOut, argv);
      && (ResetSigint in plan <==> !background)
      && (!background ==> plan[0] == ResetSigint)
  {
    var plan := Plan(background, fileIn, fileOut, argv);
    assert plan == Setup(background, fileIn, fileOut) + [Exec(argv)];
  }

  /** `/dev/null` is used for a side exactly when the command is in the background and names no file for it. */
  lemma PlanUsesNullDevice(background: bool, fileIn: Option<string>, fileOut: Option<string>, argv: seq<string>)
    ensures var plan := Plan(background, fileIn, fileOut, argv);
      && (Redirect(Input, NullDevice, false) in plan <==> background && fileIn.None?)
      && (Redirect(Output, NullDevice, false) in plan <==> background && fileOut.None?)
  {
    var plan := Plan(background, fileIn, fileOut, argv);
    assert plan == Setup(background, fileIn, fileOut) + [Exec(argv)];
  }

  /** The named files are the ones the command gave, each for its own side. */
  lemma PlanOpensNamedFiles(background: bool, fileIn: Option<string>, fileOut: Option<string>, argv: seq<string>, path: string)
    ensures var plan := Plan(background, fileIn, fileOut, argv);
      && (Redirect(Input, path, true) in plan <==> fileIn == Some(path))
      && (Redirect(Output, path, true) in plan <==> fileOut == Some(path))
  {
    var plan := Plan(background, fileIn, fileOut, argv);
    assert plan == Setup(background, fileIn, fileOut) + [Exec(argv)];
  }

  /** What each call returned; for the exec step, Succeeded means the image was replaced. */
  datatype CallResult = Succeeded | OpenFailed | DupFailed

  /** Where descriptors 0 and 1 point (None: inherited from the shell) and the SIGINT disposition. */
  datatype ChildState = ChildState(sigint: Disposition, stdin: Option<string>, stdout: Option<string>)

  /** A child starts with the shell's state: SIGINT ignored, the terminal on 0 and 1. */
  const Inherited := ChildState(Ignored, None, None)

  /**
   * How the child ends: it runs the program in the given state, or it prints
   * a message and exits. The message goes to the child's standard output at
   * that point: `out` is where descriptor 1 points then (None: the shell's).
   */
  datatype ChildEnd =
    | Runs(argv: seq<string>, state: ChildState)
    | Exits(code: int, message: string, out: Option<string>)

  /** The line printed before `exit(1)` when a call of the plan fails. */
  function FailureText(step: Step, result: CallResult): (t: string)
    requires result != Succeeded && !step.ResetSigint?
    ensures |t| > 0 && t[|t| - 1] == '\n'
  {
    match step
    case Exec(argv) => (if argv == [] then "" else argv[0]) + ": no such file or directory\n"
    case Redirect(Input, path, named) =>
      if result == OpenFailed then
        (if named then "cannot open file " + path + " for input\n" else "cannot open /dev/null for input\n")
      else "error in input redirection from " + path + "\n"
    case Redirect(Output, path, _) =>
      if result == OpenFailed then "cannot open " + path + " for output\n"
      else "error in output redirection to " + path + "\n"
  }

  function Apply(st: ChildState, step: Step): ChildState
    requires !step.Exec?
  {
    match step
    case ResetSigint => st.(sigint := Default)
    case Redirect(side, path, _) =>
      if TargetFd(side) == 0 then st.(stdin := Some(path)) else st.(stdout := Some(path))
  }

  /**
   * Runs a plan: the signal reset cannot fail (its result is not checked);
   * the first failing open, dup2 or exec ends the child with status 1.
   */
  function Run(plan: seq<Step>, results: seq<CallResult>, st: ChildState): (end: ChildEnd)
    requires WellFormed(plan) && |results| == |plan|
    ensures end.Runs? ==> end.argv == plan[|plan| - 1].argv
    ensures end.Exits? ==> end.code == 1
    decreases |plan|
  {
    match plan[0]
    case Exec(argv) =>
      if results[0] == Succeeded then Runs(argv, st) else Exits(1, FailureText(plan[0], results[0]), st.stdout)
    case ResetSigint =>
      Run(plan[1..], results[1..], Apply(st, plan[0]))
    case Redirect(_, _, _) =>
      if results[0] != Succeeded then Exits(1, FailureText(plan[0], results[0]), st.stdout)
      else Run(plan[1..], results[1..], Apply(st, plan[0]))
  }

  function AllSucceed(n: nat): seq<CallResult> {
    seq(n, _ => Succeeded)
  }

  /** The state a plan sets up when every call succeeds. */
  function Intended(background: bool, fileIn: Option<string>, fileOut: Option<string>): ChildState {
    ChildState(
      if background then Ignored else Default,
      if fileIn.Some? then fileIn else if background then Some(NullDevice) else None,
      if fileOut.Some? then fileOut else if background then Some(NullDevice) else None)
  }

  lemma {:induction false} RunAppliesAll(plan: seq<Step>, st: ChildState)
    requires WellFormed(plan)
    ensures Run(plan, AllSucceed(|plan|), st) == Runs(plan[|plan| - 1].argv, ApplyAll(plan[..|plan| - 1], st))
    decreases |plan|
  {
    if !plan[0].Exec? {
      assert AllSucceed(|plan|)[1..] == AllSucceed(|plan| - 1);
      RunAppliesAll(plan[1..], Apply(st, plan[0]));
      assert plan[..|plan| - 1][1..] == plan[1..][..|plan| - 2];
    }
  }

  function ApplyAll(steps: seq<Step>, st: ChildState): ChildState
    requires forall i :: 0 <= i < |steps| ==> !steps[i].Exec?
  {
    if steps == [] then st else ApplyAll(steps[1..], Apply(st, steps[0]))
  }

  /**
   * When every call succeeds the program runs with SIGINT at its default
   * exactly in the foreground, the named files on 0 and 1, and `/dev/null`
   * on each side a background command left unnamed.
   */
  lemma PlanSetsUpIntended(background: bool, fileIn: Option<string>, fileOut: Option<string>, argv: seq<string>)
    ensures var plan := Plan(background, fileIn, fileOut, argv);
      WellFormed(plan) &&
      Run(plan, AllSucceed(|plan|), Inherited) == Runs(argv, Intended(background, fileIn, fileOut))
  {
    var plan := Plan(background, fileIn, fileOut, argv);
    RunAppliesAll(plan, Inherited);
    assert plan[..|plan| - 1] == Setup(background, fileIn, fileOut);
    SetupState(background, fileIn, fileOut);
  }

  lemma SetupState(background: bool, fileIn: Option<string>, fileOut: Option<string>)
    ensures ApplyAll(Setup(background, fileIn, fileOut), Inherited) == Intended(background, fileIn, fileOut)
  {
    var a := if !background then [ResetSigint] else [];
    var b := if fileIn.Some? then [Redirect(Input, fileIn.value, true)] else [];
    var c := if fileOut.Some? then [Redirect(Output, fileOut.value, true)] else [];
    var d := if background && fileIn.None? then [Redirect(Input, NullDevice, false)] else [];
    var e := if background && fileOut.None? then [Redirect(Output, NullDevice, false)] else [];
    assert Setup(background, fileIn, fileOut) == a + (b + (c + (d + e)));
    ApplyAllAppend(a, b + (c + (d + e)), Inherited);
    var s1 := ApplyAll(a, Inherited);
    ApplyAllAppend(b, c + (d + e), s1);
    var s2 := ApplyAll(b, s1);
    ApplyAllAppend(c, d + e, s2);
    var s3 := ApplyAll(c, s2);
    ApplyAllAppend(d, e, s3);
    var s4 := ApplyAll(d, s3);
    ApplyAllAtMostOne(a, Inherited);
    ApplyAllAtMostOne(b, s1);
    ApplyAllAtMostOne(c, s2);
    ApplyAllAtMostOne(d, s3);
    ApplyAllAtMostOne(e, s4);
  }

  /** Applying no step or one step. */
  lemma ApplyAllAtMostOne(steps: seq<Step>, st: ChildState)
    requires |steps| <= 1 && forall i :: 0 <= i < |steps| ==> !steps[i].Exec?
    ensures ApplyAll(steps, st) == if steps == [] then st else Apply(st, steps[0])
  {
    if steps != [] {
      assert steps[1..] == [];
    }
  }

  lemma {:induction false} ApplyAllAppend(a: seq<Step>, b: seq<Step>, st: ChildState)
    requires forall i :: 0 <= i < |a| ==> !a[i].Exec?
    requires forall i :: 0 <= i < |b| ==> !b[i].Exec?
    ensures ApplyAll(a + b, st) == ApplyAll(b, ApplyAll(a, st))
    decreases |a|
  {
    if a == [] {
      assert a + b == b;
    } else {
      assert (a + b)[1..] == a[1..] + b;
      ApplyAllAppend(a[1..], b, Apply(st, a[0]));
    }
  }

  /**
   * The first failing open, dup2 or exec ends the child with status 1 and its
   * message, printed to wherever the steps before it pointed descriptor 1.
   */
  lemma {:induction false} FirstFailureExits(plan: seq<Step>, results: seq<CallResult>, st: ChildState, i: nat)
    requires WellFormed(plan) && |results| == |plan|
    requires i < |plan| && results[i] != Succeeded && !plan[i].ResetSigint?
    requires forall j :: 0 <= j < i && !plan[j].ResetSigint? ==> results[j] == Succeeded
    ensures Run(plan, results, st) == Exits(1, FailureText(plan[i], results[i]), ApplyAll(plan[..i], st).stdout)
    decreases i
  {
    if i > 0 {
      assert !plan[0].Exec?;
      FirstFailureExits(plan[1..], results[1..], Apply(st, plan[0]), i - 1);
      assert plan[..i][1..] == plan[1..][..i - 1];
    }
  }

  /**
   * When only the exec fails, "no such file or directory" goes to the
   * output the setup arranged: the named file, `/dev/null` for a background
   * command with none, or the shell's own output for a foreground one.
   */
  lemma ExecFailureMessageGoesToSetupOutput(background: bool, fileIn: Option<string>, fileOut: Option<string>, argv: seq<string>, r: CallResult)
    requires r != Succeeded && argv != []
    ensures var plan := Plan(background, fileIn, fileOut, argv);
      Run(plan, AllSucceed(|plan| - 1) + [r], Inherited)
        == Exits(1, argv[0] + ": no such file or directory\n", Intended(background, fileIn, fileOut).stdout)
  {
    var plan := Plan(background, fileIn, fileOut, argv);
    var results := AllSucceed(|plan| - 1) + [r];
    var i := |plan| - 1;
    FirstFailureExits(plan, results, Inherited, i);
    assert plan[..i] == Setup(background, fileIn, fileOut);
    SetupState(background, fileIn, fileOut);
  }

  /** The `open` a redirect step makes, and the descriptor its `dup2` replaces. */
  datatype OpenCall = OpenCall(path: string, flags: set<OpenFlag>, mode: Option<int>, fd: nat)

  function CallOf(step: Step): OpenCall
    requires step.Redirect?
  {
    OpenCall(step.path, Flags(step), Mode(step), TargetFd(step.side))
  }

  /** The open-and-dup2 calls of a list of steps, in order. */
  function Calls(steps: seq<Step>): seq<OpenCall> {
    if steps == [] then [] else (if steps[0].Redirect? then [CallOf(steps[0])] else []) + Calls(steps[1..])
  }

  lemma {:induction false} CallsAppend(a: seq<Step>, b: seq<Step>)
    ensures Calls(a + b) == Calls(a) + Calls(b)
    decreases |a|
  {
    if a == [] {
      assert a + b == b;
    } else {
      var head := if a[0].Redirect? then [CallOf(a[0])] else [];
      assert (a + b)[0] == a[0] && (a + b)[1..] == a[1..] + b;
      assert Calls(a + b) == head + Calls(a[1..] + b);
      CallsAppend(a[1..], b);
      assert Calls(a) == head + Calls(a[1..]);
      assert head + (Calls(a[1..]) + Calls(b)) == (head + Calls(a[1..])) + Calls(b);
    }
  }

  lemma CallsOfOne(step: Step)
    ensures Calls([step]) == if step.Redirect? then [CallOf(step)] else []
  {
    assert [step][1..] == [];
  }

  /** The calls a plan makes are those of its setup: exec opens nothing. */
  lemma PlanCallsAreSetupCalls(background: bool, fileIn: Option<string>, fileOut: Option<string>, argv: seq<string>)
    ensures Calls(Plan(background, fileIn, fileOut, argv)) == Calls(Setup(background, fileIn, fileOut))
  {
    var setup := Setup(background, fileIn, fileOut);
    CallsAppend(setup, [Exec(argv)]);
    CallsOfOne(Exec(argv));
    assert Calls(setup) + [] == Calls(setup);
  }

  /**
   * The `open`/`dup2` pairs a child makes, in order (smallsh.c:422-560): the
   * input file read-only onto 0; the output file write-only, created and
   * truncated with mode 0644 onto 1; in the background, `/dev/null`
   * read-only onto 0 and write-only onto 1 for each side left unnamed.
   */
  lemma PlanCalls(background: bool, fileIn: Option<string>, fileOut: Option<string>, argv: seq<string>)
    ensures Calls(Plan(background, fileIn, fileOut, argv)) ==
      (if fileIn.Some? then [OpenCall(fileIn.value, {ReadOnly}, None, 0)] else [])
      + (if fileOut.Some? then [OpenCall(fileOut.value, {WriteOnly, Create, Truncate}, Some(OutputMode), 1)] else [])
      + (if background && fileIn.None? then [OpenCall(NullDevice, {ReadOnly}, None, 0)] else [])
      + (if background && fileOut.None? then [OpenCall(NullDevice, {WriteOnly}, None, 1)] else [])
  {
    PlanCallsAreSetupCalls(background, fileIn, fileOut, argv);
    var a := if !background then [ResetSigint] else [];
    var b := if fileIn.Some? then [Redirect(Input, fileIn.value, true)] else [];
    var c := if fileOut.Some? then [Redirect(Output, fileOut.value, true)] else [];
    var d := if background && fileIn.None? then [Redirect(Input, NullDevice, false)] else [];
    var e := if background && fileOut.None? then [Redirect(Output, NullDevice, false)] else [];
    assert Setup(background, fileIn, fileOut) == a + (b + (c + (d + e)));
    CallsAppend(a, b + (c + (d + e)));
    CallsAppend(b, c + (d + e));
    CallsAppend(c, d + e);
    CallsAppend(d, e);
    OptionalCall(!background, ResetSigint);
    OptionalCall(fileIn.Some?, Redirect(Input, if fileIn.Some? then fileIn.value else [], true));
    OptionalCall(fileOut.Some?, Redirect(Output, if fileOut.Some? then fileOut.value else [], true));
    OptionalCall(background && fileIn.None?, Redirect(Input, NullDevice, false));
    OptionalCall(background && fileOut.None?, Redirect(Output, NullDevice, false));
  }

  /** The calls of an optional step. */
  lemma OptionalCall(present: bool, step: Step)
    ensures Calls(if present then [step] else []) == if present && step.Redirect? then [CallOf(step)] else []
  {
    if present {
      CallsOfOne(step);
    }
  }
}
