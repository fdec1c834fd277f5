/**
 Shared vocabulary of the rule-based controllers: optional values, results
 that carry the configuration and lookup errors of the controllers, a loop
 that stops at its first error, the Python substring test used to classify
 action names, the `max(min(..))`
 clamp, and the per-agent view of action and observation names that the
 agent substrate supplies.
 */
module Base {

  datatype Option<+T> = None | Some(value: T) {
    function GetOr(default: T): T {
      match this
      case Some(v) => v
      case None => default
    }
  }

  datatype Result<+R, +E> = Ok(value: R) | Err(error: E) {
    predicate IsFailure() {
      Err?
    }

    function PropagateFailure<U>(): Result<U, E>
      requires Err?
    {
      Err(error)
    }

    function Extract(): R
      requires Ok?
    {
      value
    }
  }

  /** A loop that raises at its first failing step: all the values when
      every step succeeds, else the first error. */
  function Collect<T, E>(rs: seq<Result<T, E>>): (r: Result<seq<T>, E>)
    ensures r.Ok? ==> |r.value| == |rs|
    decreases |rs|
  {
    if |rs| == 0 then Ok([])
    else if rs[0].Err? then Err(rs[0].error)
    else
      var rest :- Collect(rs[1..]);
      Ok([rs[0].value] + rest)
  }

  lemma {:induction false} CollectSucceeds<T, E>(rs: seq<Result<T, E>>)
    ensures Collect(rs).Ok? <==> forall k :: 0 <= k < |rs| ==> rs[k].Ok?
    decreases |rs|
  {
    if |rs| > 0 {
      CollectSucceeds(rs[1..]);
      assert forall k :: 1 <= k < |rs| ==> rs[k] == rs[1..][k - 1];
    }
  }

  lemma {:induction false} CollectValue<T, E>(rs: seq<Result<T, E>>, k: nat)
    requires Collect(rs).Ok? && k < |rs|
    ensures rs[k].Ok? && Collect(rs).value[k] == rs[k].value
    decreases k
  {
    if k > 0 {
      CollectValue(rs[1..], k - 1);
    }
  }

  lemma {:induction false} CollectFailure<T, E>(rs: seq<Result<T, E>>)
    requires Collect(rs).Err?
    ensures exists k :: 0 <= k < |rs| && rs[k].Err? && Collect(rs).error == rs[k].error && forall j :: 0 <= j < k ==> rs[j].Ok?
    decreases |rs|
  {
    if rs[0].Ok? {
      CollectFailure(rs[1..]);
      var k :| 0 <= k < |rs[1..]| && rs[1..][k].Err? && Collect(rs[1..]).error == rs[1..][k].error
               && forall j :: 0 <= j < k ==> rs[1..][j].Ok?;
      assert rs[k + 1] == rs[1..][k];
      assert forall j :: 1 <= j < k + 1 ==> rs[j] == rs[1..][j - 1];
    }
  }

  /** `sub` occurs in `s` starting at position `i`. */
  predicate OccursAt(sub: string, s: string, i: int) {
    0 <= i && i + |sub| <= |s| && s[i..i + |sub|] == sub
  }

  /** Python's `sub in s` on strings: `sub` occurs at some position of `s`. */
  predicate IsInfix(sub: string, s: string) {
    exists i | 0 <= i <= |s| - |sub| :: OccursAt(sub, s, i)
  }

  /** A string that lacks one of the characters of `sub` does not contain
      `sub`. */
  lemma CharAbsent(sub: string, s: string, j: nat)
    requires j < |sub| && sub[j] !in s
    ensures !IsInfix(sub, s)
  {
    forall i | 0 <= i <= |s| - |sub| ensures !OccursAt(sub, s, i) {
      assert s[i..i + |sub|][j] == s[i + j];
    }
  }

  function Min(a: real, b: real): real {
    if a <= b then a else b
  }

  function Max(a: real, b: real): real {
    if a >= b then a else b
  }

  /** Python's `max(min(x, hi), lo)`: when `lo > hi` the lower bound wins. */
  function Clamp(x: real, lo: real, hi: real): (r: real)
    ensures lo <= hi ==> lo <= r <= hi
    ensures lo <= x <= hi ==> r == x
    ensures r == lo || r == x || r == hi
    ensures lo <= hi && x >= hi ==> r == hi
    ensures x <= lo ==> r == lo
  {
    Max(Min(x, hi), lo)
  }

  /** What the agent substrate exposes for one agent: its ordered action
      names and its ordered observation names. */
  datatype AgentSpace = AgentSpace(actionNames: seq<string>, observationNames: seq<string>)

  /** Python's `zip(xs, ys)` length. */
  function ZipLength(m: nat, n: nat): (r: nat)
    ensures r <= m && r <= n && (r == m || r == n)
  {
    if m <= n then m else n
  }
}
