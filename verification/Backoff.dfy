/** The waiting pattern of `PacketQueue::push` (packet_queue.hpp lines 50 and 75 to 81). */
module Backoff {
  import opened Common

  const STEP: nat := 10
  const CAP: nat := 100

  /** `wait` as slept after the attempt numbered `n`, counting from 0. */
  function Nap(n: nat): nat {
    Min(STEP * n, CAP)
  }

  /** `tw` after `k` failed attempts. */
  function Slept(k: nat): nat {
    if k == 0 then 0 else Slept(k - 1) + Nap(k - 1)
  }

  lemma Gauss(n: nat)
    ensures n * (n - 1) + 2 * n == (n + 1) * n
  {
  }

  lemma {:induction false} SleptClosedForm(k: nat)
    ensures k <= 11 ==> Slept(k) == 5 * (k * (k - 1))
    ensures k >= 11 ==> Slept(k) == 550 + 100 * (k - 11)
  {
    if k > 0 {
      SleptClosedForm(k - 1);
      Gauss(k - 1);
    }
  }

  lemma {:induction false} SleptMonotone(j: nat, k: nat)
    requires j <= k
    ensures Slept(j) <= Slept(k)
    ensures 1 <= j < k ==> Slept(j) < Slept(k)
    decreases k
  {
    if j < k {
      SleptMonotone(j, k - 1);
    }
  }

  /** How many attempts the loop makes against a pool that stays full. */
  function Attempts(blockWait: nat): nat {
    Search(blockWait, 0)
  }

  function Search(blockWait: nat, k: nat): (r: nat)
    ensures k <= r && Slept(r) >= blockWait
    ensures forall j :: k <= j < r ==> Slept(j) < blockWait
    decreases blockWait - Slept(k), if k == 0 then 1 else 0
  {
    if Slept(k) >= blockWait then k else Search(blockWait, k + 1)
  }

  /**
   The number of attempts is the least `k` whose accumulated sleep reaches `blockWait`, and the
   sleep requested overshoots `blockWait` by less than one full nap.
   */
  lemma AttemptsExact(blockWait: nat)
    ensures forall k: nat :: Slept(k) >= blockWait <==> k >= Attempts(blockWait)
    ensures blockWait == 0 <==> Attempts(blockWait) == 0
    ensures blockWait > 0 ==> blockWait <= Slept(Attempts(blockWait)) < blockWait + CAP
  {
    var r := Attempts(blockWait);
    forall k: nat
      ensures Slept(k) >= blockWait <==> k >= r
    {
      if k >= r {
        SleptMonotone(r, k);
      }
    }
    if blockWait > 0 {
      assert Slept(r) == Slept(r - 1) + Nap(r - 1);
      assert Slept(r - 1) < blockWait;
    }
  }

  /** One turn of the loop after a failed attempt: `wait`, `tw` and the loop test stay in step. */
  lemma OneMoreNap(blockWait: nat, k: nat, wait: nat)
    requires k > 0 && Slept(k - 1) < blockWait && Min(wait, CAP) == Nap(k - 1)
    ensures Min(Min(wait, CAP) + STEP, CAP) == Nap(k)
    ensures Slept(k) == Slept(k - 1) + Min(wait, CAP)
    ensures k <= Attempts(blockWait)
  {
    AttemptsExact(blockWait);
    assert Slept(k - 1) >= blockWait <==> k - 1 >= Attempts(blockWait);
  }
}
