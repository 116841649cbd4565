/** Clock readings in milliseconds, which may go back. */
module Clock {
  /** The time since an earlier reading, or none when the clock has gone back. */
  function Elapsed(since: nat, now: nat): nat {
    if now >= since then now - since else 0
  }
}
