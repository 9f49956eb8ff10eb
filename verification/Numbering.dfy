/** The turns of the transaction counter, and the numbers that they give. */
module Numbering {
  import opened Bytes
  import opened NodeState

  /** How often the counter has moved on. */
  function Turns(states: seq<State>, k: nat): nat
    requires k < |states|
  {
    if k == 0 then 0 else Turns(states, k - 1) + if states[k].tx == states[k - 1].tx then 0 else 1
  }

  lemma {:induction false} TurnsGrow(states: seq<State>, j: nat, k: nat)
    requires j <= k < |states|
    ensures Turns(states, j) <= Turns(states, k)
  {
    if j < k { TurnsGrow(states, j, k - 1); }
  }

  function Number(first: U16, turn: nat): U16 {
    (first + turn) % 0x1_0000
  }

  /** The number is that of one of the first n turns. */
  ghost predicate OfTurn(transaction: U16, first: U16, n: nat) {
    exists m: nat :: 1 <= m <= n && transaction == Number(first, m)
  }

  lemma NumbersDiffer(first: U16, m: nat, n: nat)
    requires m < n < m + 0x1_0000
    ensures Number(first, m) != Number(first, n)
  {
  }
}
