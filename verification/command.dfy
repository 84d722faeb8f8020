/**
 * The command builder of main (smallsh.c:270-344): tokens become an argument
 * vector, an input file, an output file and a background flag.
 */
module CommandLine {
  import opened Wrappers
  import opened Expansion
  import Decimal

  /** `char* args_list[513]`: room for 512 arguments and the NULL after them. */
  const ArgSlots := 513
  const MaxArgs := ArgSlots - 1
  /** `char with_pid[2048]` and cmdPid's `char store[2048]`. */
  const ExpandBufferSize := 2048

  datatype Command = Command(argv: seq<string>, fileIn: Option<string>, fileOut: Option<string>, background: bool)

  /**
   * Lines on which the source has undefined behaviour: `strdup(NULL)` for a
   * missing redirection operand, and writes past `args_list` or `with_pid`.
   */
  datatype BuildError = MissingInputTarget | MissingOutputTarget | TokenTooLong | TooManyArguments

  /** What the token loop has gathered so far. */
  datatype Collected = Collected(args: seq<string>, fileIn: Option<string>, fileOut: Option<string>)

  const NothingCollected := Collected([], None, None)

  /** The token and its expansion, each with its NUL, fit `with_pid`. */
  predicate FitsExpandBuffer(t: string, pid: int) {
    |t| < ExpandBufferSize && |Expand(t, PidText(pid))| < ExpandBufferSize
  }

  /**
   * smallsh.c:300-312: a token is handed to cmdPid only when `strstr` finds
   * `$$` in it; doing so changes nothing for the others, so every accepted
   * word is the full expansion, and no `$$` is left in it.
   */
  function ExpandToken(t: string, pid: int): (r: Result<string, BuildError>)
    ensures !HasMarker(t) ==> r == Ok(t)
    ensures r.Err? <==> HasMarker(t) && !FitsExpandBuffer(t, pid)
    ensures r.Ok? ==> r.value == Expand(t, PidText(pid)) && !HasMarker(r.value)
  {
    ExpandWithoutMarker(t, PidText(pid));
    ExpandLeavesNoMarker(t, PidText(pid));
    if !HasMarker(t) then Ok(t)
    else if FitsExpandBuffer(t, pid) then Ok(Expand(t, PidText(pid)))
    else Err(TokenTooLong)
  }

  /** The token loop, smallsh.c:271-322. */
  function Collect(tokens: seq<string>, pid: int, acc: Collected): (r: Result<Collected, BuildError>)
    ensures r.Ok? ==> acc.args <= r.value.args
    ensures r.Ok? && |acc.args| <= MaxArgs ==> |r.value.args| <= MaxArgs
    decreases |tokens|
  {
    if tokens == [] then Ok(acc)
    else if tokens[0] == "<" then
      if |tokens| == 1 then Err(MissingInputTarget)
      else Collect(tokens[2..], pid, acc.(fileIn := Some(tokens[1])))
    else if tokens[0] == ">" then
      if |tokens| == 1 then Err(MissingOutputTarget)
      else Collect(tokens[2..], pid, acc.(fileOut := Some(tokens[1])))
    else
      match ExpandToken(tokens[0], pid)
      case Err(e) => Err(e)
      case Ok(word) =>
        if |acc.args| >= MaxArgs then Err(TooManyArguments)
        else Collect(tokens[1..], pid, acc.(args := acc.args + [word]))
  }

  predicate EndsWithAmpersand(args: seq<string>) {
    |args| > 0 && args[|args| - 1] == "&"
  }

  /**
   * smallsh.c:324-344: a last argument `&` is dropped whatever the mode, and
   * asks for the background only outside foreground-only mode; an `&`
   * anywhere else stays an argument.
   */
  function Finish(c: Collected, fFlag: int): (cmd: Command)
    ensures cmd.argv + (if EndsWithAmpersand(c.args) then ["&"] else []) == c.args
    ensures cmd.background <==> EndsWithAmpersand(c.args) && fFlag == 0
    ensures cmd.fileIn == c.fileIn && cmd.fileOut == c.fileOut
  {
    var amp := EndsWithAmpersand(c.args);
    Command(if amp then c.args[..|c.args| - 1] else c.args, c.fileIn, c.fileOut, amp && fFlag == 0)
  }

  /**
   * The slot main inspects for a trailing `&`, as written: one below the
   * number of arguments, with no check that there is an argument at all.
   */
  function AmpersandIndexAsWritten(c: Collected): (index: int)
    ensures index < |c.args|
    ensures 0 <= index <==> c.args != []
  {
    |c.args| - 1
  }

  function Build(tokens: seq<string>, fFlag: int, pid: int): (r: Result<Command, BuildError>)
    ensures r.Ok? && r.value.background ==> fFlag == 0
  {
    match Collect(tokens, pid, NothingCollected)
    case Err(e) => Err(e)
    case Ok(c) => Ok(Finish(c, fFlag))
  }

  /** Reading a line in two parts: the second part continues from what the first gathered. */
  lemma {:induction false} CollectAppend(ts: seq<string>, more: seq<string>, pid: int, acc: Collected)
    requires Collect(ts, pid, acc).Ok?
    ensures Collect(ts + more, pid, acc) == Collect(more, pid, Collect(ts, pid, acc).value)
    decreases |ts|
  {
    if ts == [] {
      assert ts + more == more;
    } else if ts[0] == "<" || ts[0] == ">" {
      assert (ts + more)[2..] == ts[2..] + more;
      if ts[0] == "<" {
        CollectAppend(ts[2..], more, pid, acc.(fileIn := Some(ts[1])));
      } else {
        CollectAppend(ts[2..], more, pid, acc.(fileOut := Some(ts[1])));
      }
    } else {
      assert (ts + more)[1..] == ts[1..] + more;
      var word := ExpandToken(ts[0], pid).value;
      CollectAppend(ts[1..], more, pid, acc.(args := acc.args + [word]));
    }
  }

  /**
   * `<` and `>` take the next token as it is, with no expansion; a later one
   * replaces an earlier one, and neither the operator nor its operand
   * becomes an argument.
   */
  lemma RedirectionTakesNextToken(ts: seq<string>, path: string, pid: int, acc: Collected)
    requires Collect(ts, pid, acc).Ok?
    ensures var c := Collect(ts, pid, acc).value;
      && Collect(ts + ["<", path], pid, acc) == Ok(c.(fileIn := Some(path)))
      && Collect(ts + [">", path], pid, acc) == Ok(c.(fileOut := Some(path)))
  {
    CollectAppend(ts, ["<", path], pid, acc);
    CollectAppend(ts, [">", path], pid, acc);
  }

  /** Any other token is expanded and appended, after the arguments before it. */
  lemma WordIsAppended(ts: seq<string>, w: string, pid: int, acc: Collected)
    requires Collect(ts, pid, acc).Ok?
    requires w != "<" && w != ">"
    requires |Collect(ts, pid, acc).value.args| < MaxArgs
    requires !HasMarker(w) || FitsExpandBuffer(w, pid)
    ensures var c := Collect(ts, pid, acc).value;
      Collect(ts + [w], pid, acc) == Ok(c.(args := c.args + [Expand(w, PidText(pid))]))
  {
    CollectAppend(ts, [w], pid, acc);
  }

  /** The arguments of a line with no redirection: its tokens, each expanded. */
  function ExpandAll(ts: seq<string>, pid: int): (ws: seq<string>) {
    seq(|ts|, i requires 0 <= i < |ts| => Expand(ts[i], PidText(pid)))
  }

  lemma {:induction false} CollectPlainWords(ts: seq<string>, pid: int, acc: Collected)
    requires forall i :: 0 <= i < |ts| ==> ts[i] != "<" && ts[i] != ">"
    requires forall i :: 0 <= i < |ts| ==> !HasMarker(ts[i]) || FitsExpandBuffer(ts[i], pid)
    requires |acc.args| + |ts| <= MaxArgs
    ensures Collect(ts, pid, acc) == Ok(acc.(args := acc.args + ExpandAll(ts, pid)))
    decreases |ts|
  {
    if ts == [] {
      assert acc.args + ExpandAll(ts, pid) == acc.args;
    } else {
      var word := Expand(ts[0], PidText(pid));
      assert ExpandToken(ts[0], pid) == Ok(word);
      CollectPlainWords(ts[1..], pid, acc.(args := acc.args + [word]));
      assert ExpandAll(ts, pid) == [word] + ExpandAll(ts[1..], pid);
      assert acc.args + [word] + ExpandAll(ts[1..], pid) == acc.args + ExpandAll(ts, pid);
    }
  }

  /** An operator token never becomes an argument: no expansion of a word yields one. */
  lemma {:induction false} OperatorsNeverArguments(ts: seq<string>, pid: int, acc: Collected)
    requires "<" !in acc.args && ">" !in acc.args
    requires Collect(ts, pid, acc).Ok?
    ensures "<" !in Collect(ts, pid, acc).value.args && ">" !in Collect(ts, pid, acc).value.args
    decreases |ts|
  {
    if ts != [] {
      if ts[0] == "<" {
        OperatorsNeverArguments(ts[2..], pid, acc.(fileIn := Some(ts[1])));
      } else if ts[0] == ">" {
        OperatorsNeverArguments(ts[2..], pid, acc.(fileOut := Some(ts[1])));
      } else {
        var word := ExpandToken(ts[0], pid).value;
        if HasMarker(ts[0]) {
          ExpandShowsReplacement(ts[0], PidText(pid));
          assert Decimal.IsDigit(PidText(pid)[0]) || PidText(pid)[0] == '-';
          assert word != "<" && word != ">";
        }
        OperatorsNeverArguments(ts[1..], pid, acc.(args := acc.args + [word]));
      }
    }
  }

  /**
   * A final `&` token is dropped from the arguments whatever the mode, and
   * the command goes to the background exactly when foreground-only mode is off.
   */
  lemma TrailingAmpersand(ts: seq<string>, fFlag: int, pid: int)
    requires Collect(ts, pid, NothingCollected).Ok?
    requires |Collect(ts, pid, NothingCollected).value.args| < MaxArgs
    ensures var c := Collect(ts, pid, NothingCollected).value;
      Build(ts + ["&"], fFlag, pid) == Ok(Command(c.args, c.fileIn, c.fileOut, fFlag == 0))
  {
    var c := Collect(ts, pid, NothingCollected).value;
    assert Expand("&", PidText(pid)) == "&";
    WordIsAppended(ts, "&", pid, NothingCollected);
    var last := c.(args := c.args + ["&"]);
    assert Collect(ts + ["&"], pid, NothingCollected) == Ok(last);
    assert EndsWithAmpersand(last.args);
    assert last.args[..|c.args|] == c.args;
    assert Finish(last, fFlag) == Command(c.args, c.fileIn, c.fileOut, fFlag == 0);
  }

  /** An `&` followed by another word is an ordinary argument and asks for nothing. */
  lemma AmpersandBeforeWord(ts: seq<string>, w: string, fFlag: int, pid: int)
    requires Collect(ts, pid, NothingCollected).Ok?
    requires |Collect(ts, pid, NothingCollected).value.args| + 2 <= MaxArgs
    requires w != "<" && w != ">" && w != "&" && !HasMarker(w)
    ensures var c := Collect(ts, pid, NothingCollected).value;
      Build(ts + ["&", w], fFlag, pid) == Ok(Command(c.args + ["&", w], c.fileIn, c.fileOut, false))
  {
    var c := Collect(ts, pid, NothingCollected).value;
    ExpandWithoutMarker("&", PidText(pid));
    ExpandWithoutMarker(w, PidText(pid));
    assert !MarkerAt("&", 0);
    WordIsAppended(ts, "&", pid, NothingCollected);
    WordIsAppended(ts + ["&"], w, pid, NothingCollected);
    assert ts + ["&"] + [w] == ts + ["&", w];
    assert c.args + ["&"] + [w] == c.args + ["&", w];
  }
}
