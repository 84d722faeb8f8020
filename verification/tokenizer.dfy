/**
 * The `strtok(line, " \n")` loop of main (smallsh.c:265, 276, 282, 288, 294,
 * 318): a line is split into the maximal runs of characters that are neither
 * a space nor a newline.
 */
module Tokenizer {

  predicate IsDelimiter(c: char) {
    c == ' ' || c == '\n'
  }

  /** A token as `strtok` returns it: non-empty, with no delimiter inside. */
  predicate IsToken(t: string) {
    |t| > 0 && forall i :: 0 <= i < |t| ==> !IsDelimiter(t[i])
  }

  predicate AllDelimiters(s: string) {
    forall i :: 0 <= i < |s| ==> IsDelimiter(s[i])
  }

  /** Length of the run of non-delimiters at the front of `s`. */
  function WordLength(s: string): (n: nat)
    ensures n <= |s|
    ensures forall i :: 0 <= i < n ==> !IsDelimiter(s[i])
    ensures n < |s| ==> IsDelimiter(s[n])
  {
    if s == [] || IsDelimiter(s[0]) then 0 else 1 + WordLength(s[1..])
  }

  function Tokenize(line: string): (tokens: seq<string>)
    ensures forall k :: 0 <= k < |tokens| ==> IsToken(tokens[k])
    decreases |line|
  {
    if line == [] then []
    else if IsDelimiter(line[0]) then Tokenize(line[1..])
    else
      var n := WordLength(line);
      [line[..n]] + Tokenize(line[n..])
  }

  /** The non-delimiter characters of `s`, in order. */
  function Content(s: string): string {
    if s == [] then [] else (if IsDelimiter(s[0]) then [] else [s[0]]) + Content(s[1..])
  }

  function Concat(ts: seq<string>): string {
    if ts == [] then [] else ts[0] + Concat(ts[1..])
  }

  /** Tokens joined by single spaces, the inverse direction of `Tokenize`. */
  function Join(ts: seq<string>): string {
    if ts == [] then [] else if |ts| == 1 then ts[0] else ts[0] + " " + Join(ts[1..])
  }

  lemma {:induction false} ContentOfWord(s: string)
    requires forall i :: 0 <= i < |s| ==> !IsDelimiter(s[i])
    ensures Content(s) == s
  {
    if s != [] {
      ContentOfWord(s[1..]);
      assert s == [s[0]] + s[1..];
    }
  }

  lemma {:induction false} ContentAppend(a: string, b: string)
    ensures Content(a + b) == Content(a) + Content(b)
  {
    if a != [] {
      assert (a + b)[1..] == a[1..] + b;
      ContentAppend(a[1..], b);
    } else {
      assert a + b == b;
    }
  }

  /** Tokenizing keeps every non-delimiter character, in input order, and nothing else. */
  lemma {:induction false} TokenizeKeepsContent(line: string)
    ensures Concat(Tokenize(line)) == Content(line)
    decreases |line|
  {
    if line != [] {
      if IsDelimiter(line[0]) {
        TokenizeKeepsContent(line[1..]);
      } else {
        var n := WordLength(line);
        TokenizeKeepsContent(line[n..]);
        assert line == line[..n] + line[n..];
        ContentAppend(line[..n], line[n..]);
        ContentOfWord(line[..n]);
        assert ([line[..n]] + Tokenize(line[n..]))[1..] == Tokenize(line[n..]);
      }
    }
  }

  /** A line yields no token exactly when it is blank: only spaces and newlines. */
  lemma {:induction false} TokenizeBlank(line: string)
    ensures Tokenize(line) == [] <==> AllDelimiters(line)
    decreases |line|
  {
    if line != [] {
      if IsDelimiter(line[0]) {
        TokenizeBlank(line[1..]);
        if AllDelimiters(line[1..]) {
          forall i | 0 <= i < |line| ensures IsDelimiter(line[i]) {
            if i > 0 { assert line[i] == line[1..][i - 1]; }
          }
        }
        if AllDelimiters(line) {
          forall i | 0 <= i < |line| - 1 ensures IsDelimiter(line[1..][i]) {
            assert line[1..][i] == line[i + 1];
          }
        }
      }
    }
  }

  /** The words of a token followed by the rest of the line. */
  lemma {:induction false} TokenizeAfterToken(t: string, rest: string)
    requires IsToken(t)
    requires rest == [] || IsDelimiter(rest[0])
    ensures Tokenize(t + rest) == [t] + Tokenize(rest)
  {
    var line := t + rest;
    WordLengthOfToken(t, rest);
    assert line[..|t|] == t && line[|t|..] == rest;
  }

  lemma {:induction false} WordLengthOfToken(t: string, rest: string)
    requires forall i :: 0 <= i < |t| ==> !IsDelimiter(t[i])
    requires rest == [] || IsDelimiter(rest[0])
    ensures WordLength(t + rest) == |t|
  {
    if t != [] {
      assert (t + rest)[1..] == t[1..] + rest;
      WordLengthOfToken(t[1..], rest);
    } else {
      assert t + rest == rest;
    }
  }

  /** Joining well-formed tokens with spaces and splitting again gives them back. */
  lemma {:induction false} TokenizeJoin(ts: seq<string>)
    requires forall k :: 0 <= k < |ts| ==> IsToken(ts[k])
    ensures Tokenize(Join(ts)) == ts
  {
    if |ts| == 1 {
      TokenizeAfterToken(ts[0], []);
      assert ts[0] + [] == ts[0];
    } else if |ts| > 1 {
      var tail := Join(ts[1..]);
      var rest := " " + tail;
      calc {
        Tokenize(Join(ts));
      == { assert Join(ts) == ts[0] + rest; }
        Tokenize(ts[0] + rest);
      == { TokenizeAfterToken(ts[0], rest); }
        [ts[0]] + Tokenize(rest);
      == { assert rest[1..] == tail; }
        [ts[0]] + Tokenize(tail);
      == { TokenizeJoin(ts[1..]); }
        [ts[0]] + ts[1..];
      ==
        ts;
      }
    }
  }
}
