/**
 * The dispatch chain of main (smallsh.c:346-380) and the decisions of the
 * `cd` and `status` built-ins (smallsh.c:124-178).
 */
module Builtins {
  import opened Wrappers
  import Decimal

  datatype Action = Blank | Comment | Exit | ChangeDir | Status | External

  /** `strncmp(arg, "#", 1) == 0`. */
  predicate IsComment(arg: string) {
    |arg| > 0 && arg[0] == '#'
  }

  predicate IsBuiltinName(arg: string) {
    arg == "exit" || arg == "cd" || arg == "status"
  }

  /**
   * The first test that holds picks the branch: blank, comment, `exit`, `cd`,
   * `status`, external. The built-in names do not start with `#`, so each
   * branch is taken on exactly the argument vectors described below.
   */
  function Dispatch(argv: seq<string>): (a: Action)
    ensures a == Blank <==> argv == []
    ensures a == Comment <==> argv != [] && IsComment(argv[0])
    ensures a == Exit <==> argv != [] && argv[0] == "exit"
    ensures a == ChangeDir <==> argv != [] && argv[0] == "cd"
    ensures a == Status <==> argv != [] && argv[0] == "status"
    ensures a == External <==> argv != [] && !IsComment(argv[0]) && !IsBuiltinName(argv[0])
  {
    if argv == [] then Blank
    else if IsComment(argv[0]) then Comment
    else if argv[0] == "exit" then Exit
    else if argv[0] == "cd" then ChangeDir
    else if argv[0] == "status" then Status
    else External
  }

  /**
   * cmdCd's target (smallsh.c:129-141): the value of HOME when there is no
   * second argument (`args[1] == NULL`), the second argument otherwise;
   * further arguments are ignored. `home` is `getenv("HOME")`, None when unset.
   */
  function CdTarget(argv: seq<string>, home: Option<string>): (target: Option<string>)
    requires argv != []
    ensures |argv| == 1 ==> target == home
    ensures |argv| >= 2 ==> target == Some(argv[1])
  {
    if |argv| < 2 then home else Some(argv[1])
  }

  /**
   * The wait-status macros of the platform, which are not part of this
   * model: `WIFEXITED`, `WEXITSTATUS`, `WIFSIGNALED` and `WTERMSIG` applied
   * to a raw status.
   */
  datatype WaitMacros = WaitMacros(ifExited: int -> bool, exitStatus: int -> int, ifSignaled: int -> bool, termSig: int -> int)

  /**
   * One concrete layout, Linux's: the low seven bits hold the terminating
   * signal (0 after a normal exit, 0x7f for a stopped child), bit 7 says
   * whether a core was dumped, and the next eight bits hold the exit code.
   */
  const LinuxWait := WaitMacros(
    s => s % 128 == 0,
    s => (s / 256) % 256,
    s => s % 128 != 0 && s % 128 != 127,
    s => s % 128)

  datatype Report = ExitValue(code: int) | TerminatedBySignal(signal: int)

  /**
   * cmdStatus as written (smallsh.c:157-178): the exit value when the status
   * says the child exited, and otherwise the raw status word itself.
   */
  function StatusReportAsWritten(status: int, m: WaitMacros): (r: Report)
    ensures r.ExitValue? <==> m.ifExited(status)
    ensures r.ExitValue? ==> r.code == m.exitStatus(status)
    ensures r.TerminatedBySignal? ==> r.signal == status
  {
    if m.ifExited(status) then ExitValue(m.exitStatus(status)) else TerminatedBySignal(status)
  }

  /**
   * cmdStatus as its comments describe it (smallsh.c:152-155, 168-170): the
   * exit value, or else the signal that terminated the child.
   */
  function StatusReport(status: int, m: WaitMacros): (r: Report)
    ensures r.ExitValue? <==> m.ifExited(status)
    ensures r.ExitValue? ==> r.code == m.exitStatus(status)
    ensures r.TerminatedBySignal? ==> r.signal == m.termSig(status)
  {
    if m.ifExited(status) then ExitValue(m.exitStatus(status)) else TerminatedBySignal(m.termSig(status))
  }

  /**
   * With Linux's layout, a child killed by a signal gets that signal's number
   * reported, between 1 and 126, and no exit value.
   */
  lemma LinuxReportsSignalNumber(status: int)
    requires LinuxWait.ifSignaled(status)
    ensures StatusReport(status, LinuxWait) == TerminatedBySignal(status % 128)
    ensures 1 <= StatusReport(status, LinuxWait).signal <= 126
  {
    assert !LinuxWait.ifExited(status);
  }

  /**
   * A child killed by SIGSEGV (11) that dumped core has the status word 139
   * on Linux: the code as written prints 139 where the signal is 11.
   */
  lemma CoreDumpPrintsRawStatus()
    ensures StatusReportAsWritten(139, LinuxWait) == TerminatedBySignal(139)
    ensures StatusReport(139, LinuxWait) == TerminatedBySignal(11)
    ensures StatusReportAsWritten(139, LinuxWait) != StatusReport(139, LinuxWait)
  {
    assert !LinuxWait.ifExited(139);
    assert LinuxWait.termSig(139) == 11;
  }

  /** The line printed for a report: one line whose first word tells its kind. */
  function ReportText(r: Report): (t: string)
    ensures |t| > 1 && t[|t| - 1] == '\n'
    ensures t[0] == if r.ExitValue? then 'e' else 't'
  {
    match r
    case ExitValue(code) => "exit value " + Decimal.Show(code) + "\n"
    case TerminatedBySignal(signal) => "terminated by signal " + Decimal.Show(signal) + "\n"
  }

  /** Different reports print different lines: the line tells the report back. */
  lemma ReportTextInjective(r1: Report, r2: Report)
    requires ReportText(r1) == ReportText(r2)
    ensures r1 == r2
  {
    var t := ReportText(r1);
    if r1.ExitValue? && r2.ExitValue? {
      var p := "exit value ";
      assert t[|p|..|t| - 1] == Decimal.Show(r1.code);
      assert ReportText(r2)[|p|..|t| - 1] == Decimal.Show(r2.code);
      Decimal.ShowInjective(r1.code, r2.code);
    } else if r1.TerminatedBySignal? && r2.TerminatedBySignal? {
      var p := "terminated by signal ";
      assert t[|p|..|t| - 1] == Decimal.Show(r1.signal);
      assert ReportText(r2)[|p|..|t| - 1] == Decimal.Show(r2.signal);
      Decimal.ShowInjective(r1.signal, r2.signal);
    }
  }

  /**
   * What the parent prints after waiting for a foreground child, as written
   * (smallsh.c:588-598): when WIFSIGNALED holds, the raw status word is
   * printed as the signal, the same report cmdStatus gives at line 173.
   */
  function ForegroundReportAsWritten(waited: int, m: WaitMacros): (t: string)
    ensures t != "" <==> m.ifSignaled(waited)
    ensures m.ifSignaled(waited) && !m.ifExited(waited) ==> t == ReportText(StatusReportAsWritten(waited, m))
  {
    if m.ifSignaled(waited) then ReportText(TerminatedBySignal(waited)) else ""
  }

  /**
   * The same line as intended by the comments at smallsh.c:590-591: the
   * terminating signal, as cmdStatus's corrected report gives it.
   */
  function ForegroundReport(waited: int, m: WaitMacros): (t: string)
    ensures t != "" <==> m.ifSignaled(waited)
    ensures m.ifSignaled(waited) && !m.ifExited(waited) ==> t == ReportText(StatusReport(waited, m))
  {
    if m.ifSignaled(waited) then ReportText(TerminatedBySignal(m.termSig(waited))) else ""
  }

  /**
   * After a foreground child dies of SIGSEGV with a core dump (status 139 on
   * Linux) the parent as written prints signal 139; the intended line names 11.
   */
  lemma ForegroundCoreDumpPrintsRawStatus()
    ensures ForegroundReportAsWritten(139, LinuxWait) == "terminated by signal 139\n"
    ensures ForegroundReport(139, LinuxWait) == "terminated by signal 11\n"
  {
    assert LinuxWait.ifSignaled(139) && LinuxWait.termSig(139) == 11;
    assert Decimal.Digits(13) == "13";
    assert Decimal.Show(139) == "139";
    assert Decimal.Show(11) == "11";
  }

  /** A failed `chdir` prints the target it tried, first on the line (smallsh.c:146-149). */
  function CdFailureText(target: string): (t: string)
    ensures |t| > |target| && t[..|target|] == target && t[|t| - 1] == '\n'
  {
    target + ": no such directory\n"
  }

  /** Different targets give different failure lines. */
  lemma CdFailureTextInjective(a: string, b: string)
    requires CdFailureText(a) == CdFailureText(b)
    ensures a == b
  {
    var suffix := ": no such directory\n";
    assert |a| == |b| by {
      assert |CdFailureText(a)| == |a| + |suffix|;
      assert |CdFailureText(b)| == |b| + |suffix|;
    }
  }
}
