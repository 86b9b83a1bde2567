/** Store key names of the per-concert queue state, and the lock name of the
    issuance critical section, which lives in the same key space. */
module QueueKeys {
  import opened Ids

  const WAITING_PREFIX: string := "queue:waiting:concert:"
  const ACTIVE_PREFIX: string := "queue:active:concert:"
  const SOLD_OUT_PREFIX: string := "concert:soldout:"
  const LOCK_PREFIX: string := "concert:"

  function WaitingKey(id: Long): string {
    WAITING_PREFIX + LongToString(id)
  }

  function ActiveKey(id: Long): string {
    ACTIVE_PREFIX + LongToString(id)
  }

  function SoldOutKey(id: Long): string {
    SOLD_OUT_PREFIX + LongToString(id)
  }

  /** The lock name `"concert:$concertId"` used by every issuance path. */
  function ConcertLockName(id: Long): string {
    LOCK_PREFIX + LongToString(id)
  }

  /** Two keys with the same prefix are equal only if their suffixes are. */
  lemma SamePrefixSuffix(p: string, a: string, b: string)
    requires p + a == p + b
    ensures a == b
  {
    assert a == (p + a)[|p|..];
    assert b == (p + b)[|p|..];
  }

  /** Each key builder is injective, so every concert has its own keys. */
  lemma KeysInjective(a: Long, b: Long)
    ensures WaitingKey(a) == WaitingKey(b) ==> a == b
    ensures ActiveKey(a) == ActiveKey(b) ==> a == b
    ensures SoldOutKey(a) == SoldOutKey(b) ==> a == b
    ensures ConcertLockName(a) == ConcertLockName(b) ==> a == b
  {
    LongToStringInjective(a, b);
    if WaitingKey(a) == WaitingKey(b) {
      SamePrefixSuffix(WAITING_PREFIX, LongToString(a), LongToString(b));
    }
    if ActiveKey(a) == ActiveKey(b) {
      SamePrefixSuffix(ACTIVE_PREFIX, LongToString(a), LongToString(b));
    }
    if SoldOutKey(a) == SoldOutKey(b) {
      SamePrefixSuffix(SOLD_OUT_PREFIX, LongToString(a), LongToString(b));
    }
    if ConcertLockName(a) == ConcertLockName(b) {
      SamePrefixSuffix(LOCK_PREFIX, LongToString(a), LongToString(b));
    }
  }

  /** The rendering of an id is digits, possibly after one minus sign. */
  lemma RenderedIdShape(x: Long)
    ensures |LongToString(x)| >= 1
    ensures forall i :: 0 <= i < |LongToString(x)| ==> IsDigit(LongToString(x)[i]) || LongToString(x)[i] == '-'
  {
    if x < 0 {
      var d := NatToString(-(x as int));
      assert LongToString(x) == "-" + d;
      assert forall i :: 1 <= i < |LongToString(x)| ==> LongToString(x)[i] == d[i - 1];
    }
  }

  /** No two key kinds ever collide, for any pair of concert ids; the lock
      name never collides with the sold-out flag either. */
  lemma KeysDisjoint(a: Long, b: Long)
    ensures WaitingKey(a) != ActiveKey(b)
    ensures WaitingKey(a) != SoldOutKey(b)
    ensures ActiveKey(a) != SoldOutKey(b)
    ensures WaitingKey(a) != ConcertLockName(b) && ActiveKey(a) != ConcertLockName(b)
    ensures ConcertLockName(a) != SoldOutKey(b)
  {
    assert WaitingKey(a)[6] == 'w' && ActiveKey(b)[6] == 'a';
    assert WaitingKey(a)[0] == 'q' && SoldOutKey(b)[0] == 'c';
    assert ActiveKey(a)[0] == 'q' && ConcertLockName(b)[0] == 'c';
    RenderedIdShape(a);
    assert ConcertLockName(a)[8] == LongToString(a)[0];
    assert SoldOutKey(b)[8] == 's';
  }
}
