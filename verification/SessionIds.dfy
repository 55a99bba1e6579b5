/** LocAdapterBase::generateSessionId: a static 32-bit counter that skips 0 and 0xFFFFFFFF. */
module SessionIds {
  const WRAP: nat := 0xFFFF_FFFF
  const TWO_TO_THE_32: nat := 0x1_0000_0000
  type uint32 = n: nat | n < TWO_TO_THE_32

  /** Ids repeat after this many calls. */
  const PERIOD: nat := 0xFFFF_FFFE

  class SessionIdCounter {
    var mSessionIdCounter: uint32

    constructor ()
      ensures mSessionIdCounter == 1
    {
      mSessionIdCounter := 1;
    }

    method GenerateSessionId() returns (id: uint32)
      modifies this
      ensures id == mSessionIdCounter == NextId(old(mSessionIdCounter))
    {
      mSessionIdCounter := (mSessionIdCounter + 1) % TWO_TO_THE_32;
      if mSessionIdCounter == WRAP {
        mSessionIdCounter := 1;
      }
      return mSessionIdCounter;
    }
  }

  function NextId(counter: uint32): uint32 {
    var n := (counter + 1) % TWO_TO_THE_32;
    if n == WRAP then 1 else n
  }

  /** The id that the n-th call returns, and the counter's first value for n == 0. */
  function Nth(n: nat): uint32 {
    if n == 0 then 1 else NextId(Nth(n - 1))
  }

  lemma {:induction false} NthInClosedForm(n: nat)
    ensures Nth(n) == 1 + n % PERIOD
  {
    if n > 0 {
      NthInClosedForm(n - 1);
      var q, r := (n - 1) / PERIOD, (n - 1) % PERIOD;
      if r == PERIOD - 1 {
        RemainderIs(n, q + 1, 0);
      } else {
        RemainderIs(n, q, r + 1);
      }
    }
  }

  /** No id is 0 or the wrap value, and two calls share an id exactly when whole periods lie between them; so
      any fewer calls than a period give ids that are all different. */
  lemma IdsAreFresh(n: nat, m: nat)
    requires n < m
    ensures 0 < Nth(n) < WRAP
    ensures Nth(n) == Nth(m) <==> (m - n) % PERIOD == 0
    ensures m - n < PERIOD ==> Nth(n) != Nth(m)
  {
    NthInClosedForm(n);
    NthInClosedForm(m);
    SameRemainder(n, m);
  }

  lemma SameRemainder(n: nat, m: nat)
    requires n <= m
    ensures n % PERIOD == m % PERIOD <==> (m - n) % PERIOD == 0
  {
    var q, r := n / PERIOD, n % PERIOD;
    var k, d := (m - n) / PERIOD, (m - n) % PERIOD;
    assert m == (q + k) * PERIOD + r + d;
    if r + d < PERIOD {
      RemainderIs(m, q + k, r + d);
    } else {
      RemainderIs(m, q + k + 1, r + d - PERIOD);
    }
  }

  lemma RemainderIs(m: nat, q: nat, r: nat)
    requires m == q * PERIOD + r && r < PERIOD
    ensures m % PERIOD == r
  {
  }
}
