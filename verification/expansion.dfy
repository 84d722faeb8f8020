/**
 * `$$` expansion (cmdPid, smallsh.c:56-90): every `$$` in a token becomes the
 * decimal pid of the shell. `Expand` is the left-to-right, non-overlapping
 * replacement; `ExpandPid` is the in-place rewrite of the `with_pid` buffer
 * by the `strstr` loop, proved to compute `Expand`.
 */
module Expansion {
  import opened Wrappers
  import Decimal

  /** `s[i..i+2]` is the marker `$$`. */
  predicate MarkerAt(s: string, i: int) {
    0 <= i && i + 1 < |s| && s[i] == '$' && s[i + 1] == '$'
  }

  /** What `strstr(s, "$$") != NULL` asks (smallsh.c:69, 300). */
  predicate HasMarker(s: string) {
    exists i | 0 <= i < |s| :: MarkerAt(s, i)
  }

  /** Replace each `$$`, scanning left to right and resuming after the replacement. */
  function Expand(s: string, rep: string): (r: string)
    ensures Replacements(s) == 0 ==> r == s
    decreases |s|
  {
    if |s| < 2 then s
    else if s[0] == '$' && s[1] == '$' then rep + Expand(s[2..], rep)
    else [s[0]] + Expand(s[1..], rep)
  }

  /** The number of replacements `Expand` makes. */
  function Replacements(s: string): nat
    decreases |s|
  {
    if |s| < 2 then 0
    else if s[0] == '$' && s[1] == '$' then 1 + Replacements(s[2..])
    else Replacements(s[1..])
  }

  /** A token without `$$` is left as it is, and only such a token makes no replacement. */
  lemma {:induction false} ExpandWithoutMarker(s: string, rep: string)
    ensures !HasMarker(s) <==> Replacements(s) == 0
    ensures !HasMarker(s) ==> Expand(s, rep) == s
    decreases |s|
  {
    if |s| >= 2 {
      if s[0] == '$' && s[1] == '$' {
        assert MarkerAt(s, 0);
      } else {
        ExpandWithoutMarker(s[1..], rep);
        assert !MarkerAt(s, 0);
        if HasMarker(s) {
          var i :| 0 <= i < |s| && MarkerAt(s, i);
          assert MarkerAt(s[1..], i - 1);
        }
        if HasMarker(s[1..]) {
          var i :| 0 <= i < |s| - 1 && MarkerAt(s[1..], i);
          assert MarkerAt(s, i + 1);
        }
      }
    } else {
      assert !MarkerAt(s, 0);
    }
  }

  /** Each replacement trades two characters for the pid text. */
  lemma {:induction false} ExpandLength(s: string, rep: string)
    ensures |Expand(s, rep)| == |s| + Replacements(s) * (|rep| - 2)
    decreases |s|
  {
    if |s| >= 2 {
      var d := |rep| - 2;
      if s[0] == '$' && s[1] == '$' {
        ExpandLength(s[2..], rep);
        var r := Replacements(s[2..]);
        assert |Expand(s, rep)| == |rep| + |Expand(s[2..], rep)|;
        assert Replacements(s) == 1 + r;
        OneMoreReplacement(r, d);
      } else {
        ExpandLength(s[1..], rep);
        assert |Expand(s, rep)| == 1 + |Expand(s[1..], rep)|;
        assert Replacements(s) == Replacements(s[1..]);
      }
    }
  }

  /** Each replacement adds the same difference in length. */
  lemma OneMoreReplacement(r: nat, d: int)
    ensures (1 + r) * d == d + r * d
  {
  }

  /** With a pid of two or more digits a token can only grow. */
  lemma {:induction false} ExpandNeverShrinks(s: string, rep: string)
    requires |rep| >= 2
    ensures |Expand(s, rep)| >= |s|
    decreases |s|
  {
    if |s| >= 2 {
      if s[0] == '$' && s[1] == '$' {
        ExpandNeverShrinks(s[2..], rep);
      } else {
        ExpandNeverShrinks(s[1..], rep);
      }
    }
  }

  /**
   * When the replacement has no `$`, no `$$` is left: an unreplaced `$` is
   * always followed by a character other than `$`, or by the end.
   */
  lemma {:induction false} ExpandLeavesNoMarker(s: string, rep: string)
    requires '$' !in rep
    ensures !HasMarker(Expand(s, rep))
    decreases |s|
  {
    var e := Expand(s, rep);
    if |s| < 2 {
      assert !MarkerAt(e, 0);
    } else if s[0] == '$' && s[1] == '$' {
      var t := Expand(s[2..], rep);
      ExpandLeavesNoMarker(s[2..], rep);
      if i :| MarkerAt(e, i) {
        if i >= |rep| {
          assert MarkerAt(t, i - |rep|);
        } else {
          assert e[i] == rep[i];
        }
      }
    } else {
      var t := Expand(s[1..], rep);
      ExpandLeavesNoMarker(s[1..], rep);
      if i :| MarkerAt(e, i) {
        if i >= 1 {
          assert MarkerAt(t, i - 1);
        } else {
          assert s[1] != '$';
          assert t[0] == s[1];
        }
      }
    }
  }

  /** Expanding an expanded token changes nothing. */
  lemma ExpandIdempotent(s: string, rep: string)
    requires '$' !in rep
    ensures Expand(Expand(s, rep), rep) == Expand(s, rep)
  {
    ExpandLeavesNoMarker(s, rep);
    ExpandWithoutMarker(Expand(s, rep), rep);
  }

  /** `rep` occurs in `t` starting at position `k`. */
  predicate OccursAt(rep: string, t: string, k: int) {
    0 <= k && k + |rep| <= |t| && t[k..k + |rep|] == rep
  }

  /** A token that had a marker carries the whole pid text. */
  lemma {:induction false} ExpandShowsReplacement(s: string, rep: string)
    requires HasMarker(s)
    ensures exists k :: OccursAt(rep, Expand(s, rep), k)
    decreases |s|
  {
    var i :| 0 <= i < |s| && MarkerAt(s, i);
    var e := Expand(s, rep);
    if s[0] == '$' && s[1] == '$' {
      assert e == rep + Expand(s[2..], rep);
      assert e[0..|rep|] == rep;
      assert OccursAt(rep, e, 0);
    } else {
      assert MarkerAt(s[1..], i - 1);
      ExpandShowsReplacement(s[1..], rep);
      var t := Expand(s[1..], rep);
      var k :| OccursAt(rep, t, k);
      assert e == [s[0]] + t;
      assert e[k + 1..k + 1 + |rep|] == t[k..k + |rep|];
      assert OccursAt(rep, e, k + 1);
    }
  }

  /** Replacing `$$` by itself gives the token back: everything else keeps its place. */
  lemma {:induction false} ExpandByMarkerIsIdentity(s: string)
    ensures Expand(s, "$$") == s
    decreases |s|
  {
    if |s| >= 2 {
      if s[0] == '$' && s[1] == '$' {
        ExpandByMarkerIsIdentity(s[2..]);
        assert s == "$$" + s[2..];
      } else {
        ExpandByMarkerIsIdentity(s[1..]);
        assert s == [s[0]] + s[1..];
      }
    }
  }

  /** The first `$$` of a token is where `Expand` makes its first replacement. */
  lemma {:induction false} ExpandAtFirstMarker(s: string, q: nat, rep: string)
    requires MarkerAt(s, q)
    requires forall j :: 0 <= j < q ==> !MarkerAt(s, j)
    ensures Expand(s, rep) == s[..q] + rep + Expand(s[q + 2..], rep)
    decreases q
  {
    if q > 0 {
      var t := s[1..];
      var e := Expand(s[q + 2..], rep);
      forall j | 0 <= j < q - 1 ensures !MarkerAt(t, j) {
        assert !MarkerAt(s, j + 1);
      }
      assert MarkerAt(t, q - 1);
      calc {
        Expand(s, rep);
      == { assert !MarkerAt(s, 0); }
        [s[0]] + Expand(t, rep);
      == { ExpandAtFirstMarker(t, q - 1, rep); assert t[q - 1 + 2..] == s[q + 2..]; }
        [s[0]] + (t[..q - 1] + rep + e);
      ==
        ([s[0]] + t[..q - 1]) + rep + e;
      == { assert [s[0]] + t[..q - 1] == s[..q]; }
        s[..q] + rep + e;
      }
    } else {
      assert s[..q] == [];
    }
  }

  /** The pid text that replaces each marker. */
  function PidText(pid: int): (t: string)
    ensures '$' !in t && |t| >= 1
  {
    Decimal.Show(pid)
  }

  /**
   * `strstr(buf + from, "$$")` on the C string `buf[..len]`: the first marker
   * at or after `from`, if any.
   */
  method FindMarker(buf: array<char>, len: nat, from: nat) returns (found: Option<nat>)
    requires len <= buf.Length
    ensures found.Some? ==> from <= found.value && MarkerAt(buf[..len], found.value)
    ensures found.Some? ==> forall j :: from <= j < found.value ==> !MarkerAt(buf[..len], j)
    ensures found.None? ==> forall j :: from <= j ==> !MarkerAt(buf[..len], j)
  {
    var i := from;
    while i + 1 < len
      invariant from <= i
      invariant forall j :: from <= j < i ==> !MarkerAt(buf[..len], j)
      decreases len - i
    {
      if buf[i] == '$' && buf[i + 1] == '$' {
        return Some(i);
      }
      i := i + 1;
    }
    found := None;
  }

  /** `strcpy(dst, src)`: the characters, then the terminating NUL. */
  method CopyString(dst: array<char>, src: string)
    requires |src| < dst.Length
    modifies dst
    ensures dst[..|src|] == src && dst[|src|] == '\0'
    ensures forall j :: |src| < j < dst.Length ==> dst[j] == old(dst[j])
  {
    var i := 0;
    while i < |src|
      invariant 0 <= i <= |src|
      invariant dst[..i] == src[..i]
      invariant forall j :: |src| <= j < dst.Length ==> dst[j] == old(dst[j])
    {
      dst[i] := src[i];
      i := i + 1;
    }
    dst[|src|] := '\0';
  }

  /** The text with the marker at `p` replaced: what `store` holds (smallsh.c:75-84). */
  function Splice(s: string, p: nat, rep: string): (r: string)
    requires p + 2 <= |s|
    ensures |r| == |s| + |rep| - 2
    ensures r[..p + |rep|] == s[..p] + rep && r[p + |rep|..] == s[p + 2..]
    ensures forall k :: 0 <= k < |rep| ==> r[p + k] == rep[k]
  {
    s[..p] + rep + s[p + 2..]
  }

  /** Expanding from `done` on, when the first marker from there is at `p`. */
  lemma ExpandFromFirstMarker(s: string, done: nat, p: nat, rep: string)
    requires done <= p && MarkerAt(s, p)
    requires forall j :: done <= j < p ==> !MarkerAt(s, j)
    ensures s[..done] + Expand(s[done..], rep) == s[..p] + rep + Expand(s[p + 2..], rep)
  {
    var t := s[done..];
    var q := p - done;
    forall j | 0 <= j < q ensures !MarkerAt(t, j) {
      assert !MarkerAt(s, done + j);
    }
    assert MarkerAt(t, q);
    var e := Expand(s[p + 2..], rep);
    calc {
      s[..done] + Expand(t, rep);
    == { ExpandAtFirstMarker(t, q, rep); assert t[q + 2..] == s[p + 2..]; }
      s[..done] + (t[..q] + rep + e);
    == { assert t[..q] == s[done..p]; }
      s[..done] + (s[done..p] + rep + e);
    ==
      (s[..done] + s[done..p]) + rep + e;
    == { assert s[..done] + s[done..p] == s[..p]; }
      s[..p] + rep + e;
    }
  }

  /**
   * Where the cmdPid scan stands over the current text `s`: `s[..done]` is
   * already a prefix of the final expansion, and the positions from
   * `instance` up to `done` start no marker.
   */
  ghost predicate Scanned(orig: string, s: string, instance: nat, done: nat, rep: string) {
    && instance <= done <= |s|
    && Expand(orig, rep) == s[..done] + Expand(s[done..], rep)
    && (forall j :: instance <= j < done ==> !MarkerAt(s, j))
  }

  /**
   * One turn of the cmdPid loop: replacing the first marker at or after
   * `instance` and resuming one past it keeps the scan on track, and the
   * new text never outgrows both the old text and the final expansion.
   */
  lemma ReplaceFirstMarker(orig: string, s: string, instance: nat, done: nat, p: nat, rep: string)
    requires Scanned(orig, s, instance, done, rep) && '$' !in rep && |rep| >= 1
    requires instance <= p && p + 2 <= |s| && MarkerAt(s, p)
    requires forall j :: instance <= j < p ==> !MarkerAt(s, j)
    ensures var store := Splice(s, p, rep);
      && Scanned(orig, store, p + 1, p + |rep|, rep)
      && (|store| < |s| || |store| <= |Expand(orig, rep)|)
  {
    ExpandFromFirstMarker(s, done, p, rep);
    var store := Splice(s, p, rep);
    assert forall j :: p + 1 <= j < p + |rep| ==> store[j] == rep[j - p];
    if |rep| >= 2 {
      ExpandNeverShrinks(s[p + 2..], rep);
    }
  }

  /**
   * One replacement (smallsh.c:72-87): `store` gets the text before the
   * marker, the pid and the text after it, and is copied back over the buffer.
   */
  method SpliceInPlace(buf: array<char>, cur: nat, p: nat, rep: string) returns (newCur: nat)
    requires cur < buf.Length && p + 2 <= cur
    requires cur + |rep| - 2 < buf.Length
    modifies buf
    ensures newCur == cur + |rep| - 2
    ensures buf[..newCur] == Splice(old(buf[..cur]), p, rep) && buf[newCur] == '\0'
  {
    var store := Splice(buf[..cur], p, rep);
    CopyString(buf, store);
    newCur := |store|;
  }

  /** When no marker is left from `instance` on, the buffer holds the whole expansion. */
  lemma FinishScan(orig: string, s: string, instance: nat, done: nat, rep: string)
    requires Scanned(orig, s, instance, done, rep)
    requires forall j :: instance <= j ==> !MarkerAt(s, j)
    ensures Expand(orig, rep) == s
  {
    forall j | 0 <= j ensures !MarkerAt(s[done..], j) {
      assert !MarkerAt(s, done + j);
    }
    ExpandWithoutMarker(s[done..], rep);
    assert s[..done] + s[done..] == s;
  }

  /**
   * cmdPid: rewrites the C string `buf[..len]` in place, replacing each `$$`
   * with the decimal pid. After a replacement at `p` the scan resumes at
   * `p + 1`, inside the inserted digits; they hold no `$`, so the next marker
   * found lies after them. The buffer must hold the result and its NUL.
   */
  method ExpandPid(buf: array<char>, len: nat, pid: int) returns (newLen: nat)
    requires len < buf.Length && buf[len] == '\0'
    requires |Expand(buf[..len], PidText(pid))| < buf.Length
    modifies buf
    ensures newLen < buf.Length
    ensures buf[..newLen] == Expand(old(buf[..len]), PidText(pid))
    ensures buf[newLen] == '\0'
  {
    var rep := PidText(pid);
    ghost var orig := buf[..len];
    var cur: nat := len;
    var instance: nat := 0;
    ghost var done: nat := 0;
    assert orig[..0] + orig[0..] == orig;
    while true
      invariant cur < buf.Length && buf[cur] == '\0'
      invariant Scanned(orig, buf[..cur], instance, done, rep)
      decreases cur - done
    {
      var found := FindMarker(buf, cur, instance);
      if found.None? {
        break;
      }
      var p := found.value;
      ReplaceFirstMarker(orig, buf[..cur], instance, done, p, rep);
      cur := SpliceInPlace(buf, cur, p, rep);
      done := p + |rep|;
      instance := p + 1;
    }
    FinishScan(orig, buf[..cur], instance, done, rep);
    newLen := cur;
  }
}
