/** A flag that another thread may raise at any moment and that is never lowered while a job
    runs: the atomic cancel flags of the workers and the analyser's stop request. */
module Flags {
  /** The other thread raises the flag at some time from `downUntil` on, and by `upFrom`, which is
      `delay` later, at the latest.  Time is whatever the job that looks at the flag counts, its log entries for one. */
  class CancelFlag {
    const downUntil: nat
    const delay: nat
    const upFrom: nat := downUntil + delay
    var raised: bool

    constructor (downUntil: nat, delay: nat)
      ensures this.downUntil == downUntil && this.delay == delay && !raised
    {
      this.downUntil, this.delay, raised := downUntil, delay, false;
    }

    method Raise()
      modifies this
      ensures raised
    {
      raised := true;
    }

    /** Reading the flag: the other thread may have raised it since the last look. */
    method Poll(now: nat) returns (seen: bool)
      modifies this
      ensures old(raised) ==> raised
      ensures seen == raised
      ensures upFrom <= now ==> raised
      ensures now < downUntil && !old(raised) ==> !raised
    {
      if upFrom <= now {
        raised := true;
      } else if downUntil <= now {
        if * { raised := true; }
      }
      seen := raised;
    }

    /** From when on the flag is up for certain. */
    function Certain(): nat
      reads this
    {
      if raised then 0 else upFrom
    }

    /** From when on it may be up. */
    function Possible(): nat
      reads this
    {
      if raised then 0 else downUntil
    }
  }
}
