/** One traffic counter and the account kept of it, through traffic, restarts, readings and resets. */
module Metering {
  import opened Enforcement

  /**
   * live: the kernel's counter; ref: the reading last recorded; truth: the bytes that really flowed
   * since the last reset; billed: the bytes charged for them; lost: the bytes that escaped;
   * restarted: the counter has restarted since that reading.
   */
  datatype Meter = Meter(live: nat, ref: nat, truth: nat, billed: nat, lost: nat, restarted: bool)

  predicate Sound(m: Meter) {
    && m.truth == m.billed + Delta(m.live, m.ref) + m.lost
    && (!m.restarted ==> m.live >= m.ref)
  }

  /** Bytes that a reading now would bill. */
  function Unread(m: Meter): nat {
    Delta(m.live, m.ref)
  }

  /** Catching up with the old reading makes a restart invisible, and as many bytes with it. */
  function CatchesUp(m: Meter, n: nat): nat {
    if m.live < m.ref <= m.live + n then m.ref else 0
  }

  function Flow(m: Meter, n: nat): Meter {
    m.(live := m.live + n, truth := m.truth + n, lost := m.lost + CatchesUp(m, n))
  }

  /** The counter starts again at zero; what was not yet read is gone. */
  function Restart(m: Meter): Meter {
    m.(live := 0, lost := m.lost + Unread(m), restarted := true)
  }

  /** A pass reads the counter: the difference is charged. */
  function Read(m: Meter): Meter {
    m.(ref := m.live, billed := m.billed + Unread(m), restarted := false)
  }

  /** A reset: a new period from that baseline on. */
  function Zero(m: Meter, baseline: nat): Meter {
    Meter(m.live, baseline, 0, 0, 0, m.live < baseline)
  }

  /** A baseline is the counter itself, or any reading of a counter that is now at zero. */
  lemma StepsKeepSound(m: Meter, n: nat)
    requires Sound(m)
    ensures Sound(Flow(m, n)) && Sound(Restart(m)) && Sound(Read(m)) && Sound(Zero(m, m.live))
    ensures m.live == 0 ==> Sound(Zero(m, n))
  {
  }

  /** Bytes are lost only through restarts. */
  lemma LostOnlyByRestart(m: Meter, n: nat)
    requires Sound(m)
    ensures Flow(m, n).lost == m.lost || m.restarted
    ensures Read(m).lost == m.lost
    ensures m.lost <= Flow(m, n).lost && m.lost <= Restart(m).lost
    ensures m.billed <= m.truth
  {
  }
}
