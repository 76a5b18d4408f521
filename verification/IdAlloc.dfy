// The counters that give out RIC ids and xApp ids: both are truncated to 16 bits.
module IdAlloc {
  import opened E2ap
  import opened RicTables
  import opened Protocol

  const HALF := TWO_32 / 2

  /** req_id after k requests, with its 32-bit wrap-around. */
  function Counter(k: nat): (c: int)
    ensures -HALF <= c < HALF
  {
    if k == 0 then FIRST_REQ_ID else Increment(Counter(k - 1))
  }

  function Id(k: nat): U16 {
    Trunc16(Counter(k))
  }

  lemma {:induction false} CounterMod(k: nat)
    ensures (Counter(k) - FIRST_REQ_ID - k) % TWO_32 == 0
  {
    if k > 0 {
      CounterMod(k - 1);
    }
  }

  /** The k-th id, also beyond the wrap-around of the counter. */
  lemma KthId(k: nat)
    ensures Id(k) == (FIRST_REQ_ID + k) % TWO_16
  {
    CounterMod(k);
  }

  lemma CongruentIff(a: int, b: int)
    ensures a % TWO_16 == b % TWO_16 <==> (a - b) % TWO_16 == 0
  {
  }

  /** Two ids collide exactly when a multiple of 65536 lies between them. */
  lemma CollideIff(i: nat, j: nat)
    ensures Id(i) == Id(j) <==> (i - j) % TWO_16 == 0
  {
    KthId(i);
    KthId(j);
    CongruentIff(FIRST_REQ_ID + i, FIRST_REQ_ID + j);
  }

  /** Any 65536 consecutive ids are pairwise distinct. */
  lemma ConsecutiveDistinct(first: nat, i: nat, j: nat)
    requires first <= i < j < first + TWO_16
    ensures Id(i) != Id(j)
  {
    CollideIff(i, j);
  }

  /** Id 0, which the lookup refuses, comes up exactly once per 65536 requests,
      the first time after 64515 of them. */
  lemma ZeroIff(k: nat)
    ensures Id(k) == 0 <==> k % TWO_16 == TWO_16 - FIRST_REQ_ID
    ensures k < 64515 ==> Id(k) != 0
    ensures Id(64515) == 0
  {
    KthId(k);
    KthId(64515);
  }

  /** xapp_id after k setups; a uint32_t. */
  function XappCounter(k: nat): U32 {
    if k == 0 then FIRST_XAPP else (XappCounter(k - 1) + 1) % TWO_32
  }

  lemma {:induction false} XappCounterMod(k: nat)
    ensures XappCounter(k) == (FIRST_XAPP + k) % TWO_32
  {
    if k > 0 {
      XappCounterMod(k - 1);
    }
  }

  lemma XappKthId(k: nat)
    ensures Trunc16(XappCounter(k)) == (FIRST_XAPP + k) % TWO_16
  {
    XappCounterMod(k);
    TruncTwice(FIRST_XAPP + k);
  }

  lemma TruncTwice(x: nat)
    ensures x % TWO_32 % TWO_16 == x % TWO_16
  {
  }

  /** The stored ids of two xApps are the same exactly every 65536 setups. */
  lemma XappsCollideIff(i: nat, j: nat)
    ensures Trunc16(XappCounter(i)) == Trunc16(XappCounter(j)) <==> (i - j) % TWO_16 == 0
  {
    XappKthId(i);
    XappKthId(j);
    CongruentIff(FIRST_XAPP + i, FIRST_XAPP + j);
  }
}
