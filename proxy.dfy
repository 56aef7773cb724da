/** The dial function of the reverse proxy's transport (main.go:149-163): it dials the
    application and, while the application refuses, dials again, up to a fixed bound. */
module Proxy {
  /** The outcome of one dialer.Dial call: a connection, or an error. */
  datatype DialResult = Connected(conn: nat) | Failed(err: string)

  /** The retries after the first failed attempt stop once the counter passes 500. */
  const RetryLimit: nat := 500

  /** The most attempts one call makes: the first, then retries for counters 0 to 501. */
  const MaxAttempts: nat := RetryLimit + 3

  /** The dial closure; `dial(k)` is the outcome of the k-th attempt (counting from 0),
      as the network decides it. The 10 ms pause between attempts is not modelled.
      `attempts` is how many attempts were made. */
  method Dial(dial: nat -> DialResult) returns (r: DialResult, ghost attempts: nat)
    ensures 1 <= attempts <= MaxAttempts
    ensures r == dial(attempts - 1)
    ensures forall k | 0 <= k < attempts - 1 :: dial(k).Failed?
    ensures r.Failed? ==> attempts == MaxAttempts
  {
    r := dial(0);
    attempts := 1;
    if r.Failed? {
      var i := 0;
      while true
        invariant 0 <= i <= RetryLimit + 1
        invariant attempts == i + 1
        invariant forall k | 0 <= k < attempts :: dial(k).Failed?
        decreases RetryLimit + 1 - i
      {
        r := dial(i + 1);
        attempts := attempts + 1;
        if r.Connected? || i > RetryLimit {
          break;
        }
        i := i + 1;
      }
    }
  }

  /** A call fails only when each of the MaxAttempts attempts fails, and otherwise
      returns the connection of the first attempt that succeeds. */
  lemma DialOutcome(dial: nat -> DialResult, r: DialResult, attempts: nat)
    requires 1 <= attempts <= MaxAttempts && r == dial(attempts - 1)
    requires forall k | 0 <= k < attempts - 1 :: dial(k).Failed?
    requires r.Failed? ==> attempts == MaxAttempts
    ensures r.Failed? <==> forall k | 0 <= k < MaxAttempts :: dial(k).Failed?
    ensures r.Connected? ==> exists n | 0 <= n < MaxAttempts :: r == dial(n) && forall k | 0 <= k < n :: dial(k).Failed?
  {
    if r.Connected? {
      assert !dial(attempts - 1).Failed?;
    }
  }
}
