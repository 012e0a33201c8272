/**
 * The shared vocabulary of the logging layer: the `LogLevel` enum, its
 * names as `ToString()` and `ToString().ToUpper()` print them, and the
 * substring test `string.Contains` that the debug window's tag parser
 * and search box use.
 */
module Logging {
  import opened Common

  /** `LogLevel`, in declaration order. */
  datatype LogLevel = Debug | Info | Warning | Error | Fatal

  /** The enum's underlying value, which `<` compares. */
  function Rank(l: LogLevel): nat
  {
    match l
    case Debug => 0
    case Info => 1
    case Warning => 2
    case Error => 3
    case Fatal => 4
  }

  /** Distinct levels have distinct ranks, so `<` on levels is a strict total order. */
  lemma RankInjective(a: LogLevel, b: LogLevel)
    ensures Rank(a) == Rank(b) <==> a == b
  {
  }

  /** `level.ToString()`. */
  function Name(l: LogLevel): string
  {
    match l
    case Debug => "Debug"
    case Info => "Info"
    case Warning => "Warning"
    case Error => "Error"
    case Fatal => "Fatal"
  }

  /** `level.ToString().ToUpper()`. */
  function Upper(l: LogLevel): string
  {
    match l
    case Debug => "DEBUG"
    case Info => "INFO"
    case Warning => "WARNING"
    case Error => "ERROR"
    case Fatal => "FATAL"
  }

  /** The tag the debug window looks for: the upper-case name in brackets. */
  function Tag(l: LogLevel): string
  {
    "[" + Upper(l) + "]"
  }

  /** No level name is empty, and different levels print differently. */
  lemma NamesDistinct(a: LogLevel, b: LogLevel)
    ensures |Upper(a)| > 0 && |Name(a)| == |Upper(a)|
    ensures Upper(a) == Upper(b) <==> a == b
    ensures Tag(a) == Tag(b) <==> a == b
  {
    if a != b {
      assert Upper(a)[0] != Upper(b)[0];
      assert Tag(a)[1] == Upper(a)[0] && Tag(b)[1] == Upper(b)[0];
    }
  }

  /** `t` occurs in `s` at index `i`. */
  predicate At(s: string, t: string, i: int)
  {
    0 <= i && i + |t| <= |s| && s[i..i + |t|] == t
  }

  /** `s.Contains(t)`: `t` occurs somewhere in `s`. */
  function Contains(s: string, t: string): (r: bool)
    ensures r <==> exists i :: At(s, t, i)
    decreases |s|
  {
    if |t| > |s| then false
    else if s[..|t|] == t then
      assert At(s, t, 0);
      true
    else
      var r := Contains(s[1..], t);
      assert forall i :: At(s[1..], t, i) <==> At(s, t, i + 1) by {
        forall i ensures At(s[1..], t, i) <==> At(s, t, i + 1) {
          if 0 <= i && i + |t| <= |s| - 1 {
            assert s[1..][i..i + |t|] == s[i + 1..i + 1 + |t|];
          }
        }
      }
      assert !At(s, t, 0);
      assert (exists i :: At(s, t, i)) ==> exists i :: At(s[1..], t, i) by {
        if exists i :: At(s, t, i) {
          var i :| At(s, t, i);
          assert At(s[1..], t, i - 1);
        }
      }
      r
  }

  /** Every string contains the empty string. */
  lemma ContainsEmpty(s: string)
    ensures Contains(s, "")
  {
    assert At(s, "", 0);
  }

  /** A string contains each of its slices. */
  lemma ContainsSlice(s: string, i: nat, j: nat)
    requires i <= j <= |s|
    ensures Contains(s, s[i..j])
  {
    assert At(s, s[i..j], i);
  }
}
