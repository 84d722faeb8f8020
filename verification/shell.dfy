/**
 * The state of the running shell: the foreground-only flag `f_flag`, the
 * job table `processes[512]` with `pid_count`, the last `status`, and the
 * buffers `args_list[513]` and `with_pid[2048]` that main fills for each line.
 */
module ShellState {
  import opened Wrappers
  import opened Expansion
  import opened CommandLine
  import Decimal
  import Tokenizer
  import Builtins

  /** `pid_t processes[512]`. */
  const JobSlots := 512
  const SIGTERM := 15

  /** The two notices of handle_SIGTSTP and the byte counts passed to `write` for them. */
  const ExitNotice := "\nExiting foreground-only mode\n: "
  const ExitNoticeBytes := 32
  const EnterNotice := "\nEntering foreground-only mode (& is now ignored)\n: "
  const EnterNoticeBytes := 52

  datatype Kill = Kill(pid: int, signal: int)

  /** The argument vector as `execvp` receives it: the arguments, then NULL. */
  function Argv(args: seq<string>): (v: seq<Option<string>>)
    ensures |v| == |args| + 1 && v[|args|] == None
    ensures forall j :: 0 <= j < |args| ==> v[j] == Some(args[j])
  {
    seq(|args|, j requires 0 <= j < |args| => Some(args[j])) + [None]
  }

  class Shell {
    var fFlag: int
    const processes: array<int>
    var pidCount: nat
    var status: int
    var running: bool
    const argsList: array<Option<string>>
    const withPid: array<char>

    ghost predicate Valid()
      reads this
    {
      && processes.Length == JobSlots && pidCount <= JobSlots
      && argsList.Length == ArgSlots && withPid.Length == ExpandBufferSize
      && (fFlag == 0 || fFlag == 1)
    }

    /** The recorded background jobs, in launch order. */
    ghost function Jobs(): seq<int>
      reads this, processes
      requires Valid()
    {
      processes[..pidCount]
    }

    /** Start-up state of main (smallsh.c:211-240): normal mode, no job, status 0. */
    constructor ()
      ensures Valid() && fresh(processes) && fresh(argsList) && fresh(withPid)
      ensures fFlag == 0 && Jobs() == [] && status == 0 && running
    {
      fFlag := 0;
      processes := new int[JobSlots];
      pidCount := 0;
      status := 0;
      running := true;
      argsList := new Option<string>[ArgSlots](_ => None);
      withPid := new char[ExpandBufferSize];
    }

    /**
     * handle_SIGTSTP (smallsh.c:17-50): flips foreground-only mode and writes
     * the notice for the new mode. The byte count given to `write` is the
     * whole notice, so the notice is written out in full.
     */
    method HandleSigtstp() returns (written: string)
      requires Valid()
      modifies this`fFlag
      ensures Valid()
      ensures fFlag == 1 - old(fFlag)
      ensures written == if fFlag == 0 then ExitNotice else EnterNotice
    {
      if fFlag == 1 {
        fFlag := 0;
        written := ExitNotice[..ExitNoticeBytes];
      } else {
        fFlag := 1;
        written := EnterNotice[..EnterNoticeBytes];
      }
    }

    /**
     * The kill sweep of cmdExit and of a failed fork (smallsh.c:101-110,
     * 388-402): SIGTERM to every recorded job, in the order they were recorded.
     */
    method TerminateJobs() returns (kills: seq<Kill>)
      requires Valid()
      ensures |kills| == pidCount
      ensures forall i :: 0 <= i < pidCount ==> kills[i] == Kill(processes[i], SIGTERM)
    {
      kills := [];
      var other := 0;
      while other < pidCount
        invariant other <= pidCount
        invariant |kills| == other
        invariant forall i :: 0 <= i < other ==> kills[i] == Kill(processes[i], SIGTERM)
      {
        kills := kills + [Kill(processes[other], SIGTERM)];
        other := other + 1;
      }
    }

    /** The `exit` built-in (smallsh.c:97-114): the sweep, then the shell exits with status 0. */
    method ExitBuiltin() returns (kills: seq<Kill>, exitCode: int)
      requires Valid()
      modifies this`running
      ensures Valid() && !running && exitCode == 0
      ensures |kills| == |Jobs()|
      ensures forall i :: 0 <= i < |kills| ==> kills[i] == Kill(Jobs()[i], SIGTERM)
    {
      kills := TerminateJobs();
      running := false;
      exitCode := 0;
    }

    /**
     * A failed fork (smallsh.c:386-407): the message, the sweep, status 1,
     * and the main loop is left.
     */
    method ForkFailed() returns (message: string, kills: seq<Kill>)
      requires Valid()
      modifies this`status, this`running
      ensures Valid() && !running && status == 1
      ensures message == "error creating child process\n"
      ensures |kills| == |Jobs()|
      ensures forall i :: 0 <= i < |kills| ==> kills[i] == Kill(Jobs()[i], SIGTERM)
    {
      message := "error creating child process\n";
      kills := TerminateJobs();
      status := 1;
      running := false;
    }

    /** smallsh.c:609-618: the new pid goes at index `pid_count`, which then grows by one. */
    method RecordJob(pid: int) returns (notice: string)
      requires Valid() && pidCount < JobSlots
      modifies this`pidCount, processes
      ensures Valid()
      ensures Jobs() == old(Jobs()) + [pid]
      ensures notice == "background pid is " + Decimal.Show(pid) + "\n"
    {
      processes[pidCount] := pid;
      notice := "background pid is " + Decimal.Show(pid) + "\n";
      pidCount := pidCount + 1;
    }

    /**
     * The parent after a successful fork (smallsh.c:582-620). A foreground
     * command is waited for: `waited` is the status `waitpid` stores, and an
     * abnormal end is reported with the terminating signal (the code prints
     * the raw status word there, as cmdStatus does). A background command
     * gets one non-blocking wait, which stores a status only when the child
     * has already ended (`polled`), and is recorded in the job table.
     */
    method ParentAfterFork(child: int, background: bool, waited: int, polled: Option<int>, m: Builtins.WaitMacros)
      returns (output: string)
      requires Valid()
      requires background ==> pidCount < JobSlots
      modifies this`status, this`pidCount, processes
      ensures Valid()
      ensures !background ==> status == waited && Jobs() == old(Jobs())
      ensures !background ==> output == if m.ifSignaled(waited) then Builtins.ReportText(Builtins.TerminatedBySignal(m.termSig(waited))) else ""
      ensures !background ==> output == Builtins.ForegroundReport(waited, m)
      ensures background ==> status == (if polled.Some? then polled.value else old(status))
      ensures background ==> Jobs() == old(Jobs()) + [child]
      ensures background ==> output == "background pid is " + Decimal.Show(child) + "\n"
    {
      output := "";
      if !background {
        status := waited;
        if m.ifSignaled(status) {
          output := Builtins.ReportText(Builtins.TerminatedBySignal(m.termSig(status)));
        }
      }
      if background {
        if polled.Some? {
          status := polled.value;
        }
        output := RecordJob(child);
      }
    }

    /**
     * smallsh.c:300-313: a word holding `$$` is copied into `with_pid` and
     * expanded there by cmdPid; any other word is kept as it is.
     */
    method ExpandWord(token: string, shellPid: int) returns (r: Result<string, BuildError>)
      requires Valid()
      modifies withPid
      ensures r == ExpandToken(token, shellPid)
    {
      if !HasMarker(token) {
        return Ok(token);
      }
      if !FitsExpandBuffer(token, shellPid) {
        return Err(TokenTooLong);
      }
      CopyString(withPid, token);
      var n := ExpandPid(withPid, |token|, shellPid);
      r := Ok(withPid[..n]);
    }

    /**
     * smallsh.c:323-344: a trailing `&` slot is cleared and asks for the
     * background unless foreground-only mode is on; the slot after the last
     * argument is set to NULL.
     */
    method FinishArgs(c: Collected) returns (cmd: Command)
      requires Valid() && |c.args| < ArgSlots
      requires forall j :: 0 <= j < |c.args| ==> argsList[j] == Some(c.args[j])
      modifies argsList
      ensures cmd == Finish(c, fFlag)
      ensures argsList[..|cmd.argv| + 1] == Argv(cmd.argv)
      ensures forall j :: |cmd.argv| <= j <= |c.args| ==> argsList[j] == None
    {
      var count := |c.args|;
      var background := false;
      var argv := c.args;
      if count > 0 && argsList[count - 1] == Some("&") {
        argsList[count - 1] := None;
        argv := c.args[..count - 1];
        if fFlag == 0 {
          background := true;
        }
      }
      argsList[count] := None;
      cmd := Command(argv, c.fileIn, c.fileOut, background);
      assert argsList[..|argv| + 1] == Argv(argv);
    }

    /**
     * The token loop and the `&` handling of main (smallsh.c:270-344), with
     * `shellPid` for `getpid()`. The arguments are stored one by one in
     * `args_list`. The result is the command `Build` describes, and on
     * success `args_list` holds its NULL-terminated argument vector;
     * `argsCount` is where main's clearing loop stops.
     */
    method BuildCommand(tokens: seq<string>, shellPid: int) returns (r: Result<Command, BuildError>, argsCount: nat)
      requires Valid()
      modifies argsList, withPid
      ensures r == Build(tokens, fFlag, shellPid)
      ensures r.Ok? ==> |r.value.argv| <= argsCount < ArgSlots
      ensures r.Ok? ==> argsList[..|r.value.argv| + 1] == Argv(r.value.argv)
      ensures r.Ok? ==> forall j :: |r.value.argv| <= j <= argsCount ==> argsList[j] == None
    {
      var i := 0;
      var acc := NothingCollected;
      while i < |tokens|
        invariant i <= |tokens|
        invariant |acc.args| <= MaxArgs
        invariant forall j :: 0 <= j < |acc.args| ==> argsList[j] == Some(acc.args[j])
        invariant Collect(tokens, shellPid, NothingCollected) == Collect(tokens[i..], shellPid, acc)
        decreases |tokens| - i
      {
        var token := tokens[i];
        if token == "<" || token == ">" {
          if i + 1 == |tokens| {
            r := Err(if token == "<" then MissingInputTarget else MissingOutputTarget);
            return r, 0;
          }
          if token == "<" {
            acc := acc.(fileIn := Some(tokens[i + 1]));
          } else {
            acc := acc.(fileOut := Some(tokens[i + 1]));
          }
          assert tokens[i..][2..] == tokens[i + 2..];
          i := i + 2;
        } else {
          var word := ExpandWord(token, shellPid);
          if word.Err? {
            return Err(word.error), 0;
          }
          if |acc.args| >= MaxArgs {
            return Err(TooManyArguments), 0;
          }
          argsList[|acc.args|] := Some(word.value);
          acc := acc.(args := acc.args + [word.value]);
          assert tokens[i..][1..] == tokens[i + 1..];
          i := i + 1;
        }
      }
      var cmd := FinishArgs(acc);
      r := Ok(cmd);
      argsCount := |acc.args|;
    }

    /** smallsh.c:623-634: `args_list[0..args_count]` is reset to NULL for the next line. */
    method ClearArgs(argsCount: nat)
      requires Valid() && argsCount < ArgSlots
      modifies argsList
      ensures forall j :: 0 <= j <= argsCount ==> argsList[j] == None
      ensures forall j :: argsCount < j < ArgSlots ==> argsList[j] == old(argsList[j])
    {
      var index := 0;
      while argsCount >= index
        invariant index <= argsCount + 1
        invariant forall j :: 0 <= j < index ==> argsList[j] == None
        invariant forall j :: index <= j < ArgSlots ==> argsList[j] == old(argsList[j])
      {
        argsList[index] := None;
        index := index + 1;
      }
    }
  }

  /**
   * A blank line, and a line whose only word is `&`, build an empty argument
   * vector: the cycle dispatches nothing, forks nothing and leaves the status.
   */
  lemma BlankLineDoesNothing(line: string, fFlag: int, pid: int)
    requires Tokenizer.AllDelimiters(line) || Tokenizer.Tokenize(line) == ["&"]
    ensures Build(Tokenizer.Tokenize(line), fFlag, pid).Ok?
    ensures Builtins.Dispatch(Build(Tokenizer.Tokenize(line), fFlag, pid).value.argv) == Builtins.Blank
  {
    Tokenizer.TokenizeBlank(line);
    if Tokenizer.Tokenize(line) == ["&"] {
      TrailingAmpersand([], fFlag, pid);
      assert [] + ["&"] == ["&"];
    }
  }

  /**
   * On a blank line main reads `args_list[-1]` before the array: nothing was
   * collected, so the index it inspects for `&` is -1.
   */
  lemma BlankLineReadsBeforeArgs(line: string, pid: int)
    requires Tokenizer.AllDelimiters(line)
    ensures Collect(Tokenizer.Tokenize(line), pid, NothingCollected) == Ok(NothingCollected)
    ensures AmpersandIndexAsWritten(NothingCollected) == -1
  {
    Tokenizer.TokenizeBlank(line);
  }
}
