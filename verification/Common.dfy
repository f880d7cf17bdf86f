/** Small shared vocabulary: optional values, bounded histories and powers. */
module Common {

  datatype Option<+T> = None | Some(value: T)

  /** The newest `cap` entries of a history, oldest first. */
  function Newest<T>(all: seq<T>, cap: nat): seq<T> {
    if |all| > cap then all[|all| - cap..] else all
  }

  /** Append to a bounded buffer: push, then splice the surplus off the front. */
  function PushBounded<T>(buffer: seq<T>, x: T, cap: nat): seq<T> {
    var grown := buffer + [x];
    if |grown| > cap then grown[|grown| - cap..] else grown
  }

  /** The newest entries are the end of the history: `cap` of them, or all there are. */
  lemma NewestIs<T>(all: seq<T>, cap: nat)
    ensures Newest(all, cap) == all[|all| - |Newest(all, cap)|..]
    ensures |Newest(all, cap)| == if |all| < cap then |all| else cap
  {
  }

  /** A bounded buffer forgets nothing it should still hold. */
  lemma PushKeepsNewest<T>(all: seq<T>, x: T, cap: nat)
    ensures PushBounded(Newest(all, cap), x, cap) == Newest(all + [x], cap)
  {
    if |all| > cap {
      var grown := Newest(all, cap) + [x];
      assert grown == (all + [x])[|all| - cap..];
      assert grown[1..] == (all + [x])[|all| + 1 - cap..];
    }
  }

  /** `toUpperCase` on ASCII; other characters are left alone. */
  function UpperChar(c: char): char {
    if 'a' <= c <= 'z' then (c as int - 32) as char else c
  }

  /** Letter by letter: the small letters become the capitals. */
  lemma UpperSpelled(i: nat)
    requires i < 26
    ensures UpperChar("abcdefghijklmnopqrstuvwxyz"[i]) == "ABCDEFGHIJKLMNOPQRSTUVWXYZ"[i]
  {
    assert "abcdefghijklmnopqrstuvwxyz"[i] as int == 97 + i;
    assert "ABCDEFGHIJKLMNOPQRSTUVWXYZ"[i] as int == 65 + i;
  }

  /** Nothing else changes. */
  lemma OthersUnchanged(c: char)
    ensures UpperChar(c) != c ==> c in "abcdefghijklmnopqrstuvwxyz"
  {
    if 'a' <= c <= 'z' { assert "abcdefghijklmnopqrstuvwxyz"[c as int - 97] == c; }
  }

  function ToUpper(s: string): string {
    seq(|s|, i requires 0 <= i < |s| => UpperChar(s[i]))
  }

  lemma ToUpperIdempotent(s: string)
    ensures ToUpper(ToUpper(s)) == ToUpper(s)
  {
  }

  function Abs(x: real): (r: real)
    ensures r >= 0.0 && (r == x || r == -x)
  {
    if x < 0.0 then -x else x
  }

  function Power(base: real, k: nat): real {
    if k == 0 then 1.0 else base * Power(base, k - 1)
  }

  lemma PowerNonNegative(base: real, k: nat)
    requires base >= 0.0
    ensures Power(base, k) >= 0.0
  {
    if k > 0 { PowerNonNegative(base, k - 1); }
  }

  /** The least number not yet taken. */
  function Unused(taken: set<nat>): (n: nat)
    ensures n !in taken
  {
    UnusedExists(taken);
    var n :| n !in taken && forall u: nat | u < n :: u in taken;
    n
  }

  lemma {:induction false} UnusedExists(taken: set<nat>)
    ensures exists n: nat :: n !in taken && forall u: nat | u < n :: u in taken
  {
    var n: nat := 0;
    var below: set<nat> := {};
    while n in taken
      invariant below <= taken && forall u: nat :: u in below <==> u < n
      decreases taken - below
    {
      below := below + {n};
      n := n + 1;
    }
    assert forall u: nat | u < n :: u in below;
  }
}
