/** Polynomials over GF(2) as bit lists, most significant coefficient first, and two readings
    of a cyclic redundancy check: schoolbook long division of a dividend by the generator, and
    a shift register that is fed one message bit at a time.  Nothing here depends on the
    register width, so both checksums of the program share it. */
module PolyDivision {
  type Bits = seq<bool>

  function Zeros(n: nat): (z: Bits)
    ensures |z| == n && forall i | 0 <= i < n :: !z[i]
  {
    seq(n, _ => false)
  }

  function Xor(a: Bits, b: Bits): (r: Bits)
    requires |a| == |b|
    ensures |r| == |a| && forall i | 0 <= i < |r| :: r[i] == (a[i] != b[i])
  {
    seq(|a|, i requires 0 <= i < |a| => a[i] != b[i])
  }

  /** Adds `a` to the leading coefficients of `d`. */
  function XorLead(d: Bits, a: Bits): (r: Bits)
    requires |a| <= |d|
    ensures |r| == |d|
    ensures forall i | 0 <= i < |d| :: r[i] == (d[i] != (i < |a| && a[i]))
  {
    seq(|d|, i requires 0 <= i < |d| => d[i] != (i < |a| && a[i]))
  }

  // ---------- Long division ----------

  /** The generator is monic of degree |gen|; `gen` lists the coefficients below the leading one.
      One step of long division cancels the leading coefficient of the dividend. */
  function DivideStep(d: Bits, gen: Bits): (r: Bits)
    requires |gen| < |d|
    ensures |r| == |d| - 1
    ensures forall i | 0 <= i < |r| :: r[i] == (d[i + 1] != (d[0] && i < |gen| && gen[i]))
  {
    if d[0] then XorLead(d[1..], gen) else d[1..]
  }

  /** The remainder of `d` modulo the generator, by long division. */
  function Remainder(d: Bits, gen: Bits): (r: Bits)
    requires |gen| <= |d|
    ensures |r| == |gen|
    decreases |d|
  {
    if |d| == |gen| then d else Remainder(DivideStep(d, gen), gen)
  }

  /** The product of `q` and the generator, plus `r`: the sum over the set coefficients of `q`
      of the generator shifted to that place. */
  function TimesPlus(q: Bits, r: Bits, gen: Bits): (p: Bits)
    requires |r| == |gen|
    ensures |p| == |q| + |gen|
  {
    if q == [] then r
    else
      var rest := TimesPlus(q[1..], r, gen);
      [q[0]] + (if q[0] then XorLead(rest, gen) else rest)
  }

  /** The rest is added to the product: it only changes the last |gen| coefficients. */
  lemma {:induction false} TimesPlusAdds(q: Bits, r: Bits, gen: Bits, i: nat)
    requires |r| == |gen| && i < |q| + |gen|
    ensures TimesPlus(q, r, gen)[i] == (TimesPlus(q, Zeros(|gen|), gen)[i] != (|q| <= i && r[i - |q|]))
    decreases |q|
  {
    hide TimesPlus, XorLead;
    if q == [] {
      TimesPlusNone(r, gen);
      TimesPlusNone(Zeros(|gen|), gen);
    } else {
      TimesPlusHead(q, r, gen, i);
      TimesPlusHead(q, Zeros(|gen|), gen, i);
      if i > 0 {
        TimesPlusAdds(q[1..], r, gen, i - 1);
        assert |q[1..]| == |q| - 1;
      }
    }
  }

  lemma TimesPlusNone(r: Bits, gen: Bits)
    requires |r| == |gen|
    ensures TimesPlus([], r, gen) == r
  {
  }

  lemma TimesPlusHead(q: Bits, r: Bits, gen: Bits, i: nat)
    requires |r| == |gen| && i < |q| + |gen| && q != []
    ensures i == 0 ==> TimesPlus(q, r, gen)[i] == q[0]
    ensures i > 0 ==>
      TimesPlus(q, r, gen)[i] == (TimesPlus(q[1..], r, gen)[i - 1] != (q[0] && i - 1 < |gen| && gen[i - 1]))
  {
  }

  lemma DivideStepUndone(d: Bits, gen: Bits)
    requires |gen| < |d|
    ensures d == [d[0]] + (if d[0] then XorLead(DivideStep(d, gen), gen) else DivideStep(d, gen))
  {
  }

  /** Every dividend is a multiple of the generator plus its long-division remainder. */
  lemma {:induction false} DivisionExists(d: Bits, gen: Bits) returns (q: Bits)
    requires |gen| <= |d|
    ensures |q| + |gen| == |d| && d == TimesPlus(q, Remainder(d, gen), gen)
    decreases |d|
  {
    if |d| == |gen| {
      q := [];
    } else {
      var q' := DivisionExists(DivideStep(d, gen), gen);
      q := [d[0]] + q';
      assert q[1..] == q';
      DivideStepUndone(d, gen);
    }
  }

  /** A multiple of the generator plus a short rest leaves exactly that rest. */
  lemma {:induction false} DivisionUnique(q: Bits, r: Bits, gen: Bits)
    requires |r| == |gen|
    ensures Remainder(TimesPlus(q, r, gen), gen) == r
    decreases |q|
  {
    if q != [] {
      var rest := TimesPlus(q[1..], r, gen);
      assert DivideStep(TimesPlus(q, r, gen), gen) == rest;
      DivisionUnique(q[1..], r, gen);
    }
  }

  // ---------- The shift register ----------

  /** One clock of the shift register: the message bit meets the outgoing coefficient. */
  function Clock(reg: Bits, bit: bool, gen: Bits): (r: Bits)
    requires |reg| == |gen| > 0
    ensures |r| == |gen|
    ensures forall i | 0 <= i < |r| ::
              r[i] == ((i + 1 < |reg| && reg[i + 1]) != (reg[0] != bit && gen[i]))
  {
    var shifted := reg[1..] + [false];
    if reg[0] != bit then Xor(shifted, gen) else shifted
  }

  function Run(reg: Bits, msg: Bits, gen: Bits): (r: Bits)
    requires |reg| == |gen| > 0
    ensures |r| == |gen|
    decreases |msg|
  {
    if msg == [] then reg else Run(Clock(reg, msg[0], gen), msg[1..], gen)
  }

  lemma {:induction false} RunAppend(reg: Bits, a: Bits, b: Bits, gen: Bits)
    requires |reg| == |gen| > 0
    ensures Run(reg, a + b, gen) == Run(Run(reg, a, gen), b, gen)
    decreases |a|
  {
    if a == [] {
      assert a + b == b;
    } else {
      assert (a + b)[1..] == a[1..] + b;
      RunAppend(Clock(reg, a[0], gen), a[1..], b, gen);
    }
  }

  /** What the register is about to divide: the message still to come, |gen| zero
      coefficients, and the register added in front. */
  function Pending(reg: Bits, msg: Bits): (d: Bits)
    ensures |d| == |msg| + |reg|
    ensures forall i | 0 <= i < |d| :: d[i] == ((i < |msg| && msg[i]) != (i < |reg| && reg[i]))
  {
    XorLead(msg + Zeros(|reg|), reg)
  }

  lemma PendingStep(reg: Bits, msg: Bits, gen: Bits)
    requires |reg| == |gen| > 0 && msg != []
    ensures DivideStep(Pending(reg, msg), gen) == Pending(Clock(reg, msg[0], gen), msg[1..])
  {
  }

  /** The register computes the long-division remainder of what is pending. */
  lemma {:induction false} RunIsRemainder(reg: Bits, msg: Bits, gen: Bits)
    requires |reg| == |gen| > 0
    ensures Run(reg, msg, gen) == Remainder(Pending(reg, msg), gen)
    decreases |msg|
  {
    if msg == [] {
      assert Pending(reg, msg) == reg;
    } else {
      PendingStep(reg, msg, gen);
      RunIsRemainder(Clock(reg, msg[0], gen), msg[1..], gen);
    }
  }

  // ---------- Linearity ----------

  lemma ClockLinear(a: Bits, b: Bits, x: bool, y: bool, gen: Bits)
    requires |a| == |b| == |gen| > 0
    ensures Clock(Xor(a, b), x != y, gen) == Xor(Clock(a, x, gen), Clock(b, y, gen))
  {
  }

  /** Register and message enter linearly; for a fixed start the check is affine. */
  lemma {:induction false} RunLinear(a: Bits, b: Bits, x: Bits, y: Bits, gen: Bits)
    requires |a| == |b| == |gen| > 0 && |x| == |y|
    ensures Run(Xor(a, b), Xor(x, y), gen) == Xor(Run(a, x, gen), Run(b, y, gen))
    decreases |x|
  {
    if x != [] {
      ClockLinear(a, b, x[0], y[0], gen);
      assert Xor(x, y)[1..] == Xor(x[1..], y[1..]);
      RunLinear(Clock(a, x[0], gen), Clock(b, y[0], gen), x[1..], y[1..], gen);
    }
  }

  /** Up to |gen| message bits may be added to the register first and replaced by zeros. */
  lemma {:induction false} RunPreload(reg: Bits, msg: Bits, gen: Bits)
    requires |reg| == |gen| > 0 && |msg| <= |gen|
    ensures Run(reg, msg, gen) == Run(XorLead(reg, msg), Zeros(|msg|), gen)
    decreases |msg|
  {
    if msg == [] {
      assert XorLead(reg, msg) == reg;
    } else {
      var z := Zeros(|msg|);
      assert z[1..] == Zeros(|msg| - 1);
      var next := Clock(reg, msg[0], gen);
      assert XorLead(next, msg[1..]) == Clock(XorLead(reg, msg), false, gen);
      RunPreload(next, msg[1..], gen);
    }
  }

  lemma {:induction false} RunZeros(n: nat, gen: Bits)
    requires |gen| > 0
    ensures Run(Zeros(|gen|), Zeros(n), gen) == Zeros(|gen|)
  {
    if n > 0 {
      assert Zeros(n)[1..] == Zeros(n - 1);
      assert Clock(Zeros(|gen|), false, gen) == Zeros(|gen|);
      RunZeros(n - 1, gen);
    }
  }

  // ---------- Error detection ----------

  lemma ClockInjective(a: Bits, b: Bits, bit: bool, gen: Bits)
    requires |a| == |b| == |gen| > 0 && gen[|gen| - 1]
    requires Clock(a, bit, gen) == Clock(b, bit, gen)
    ensures a == b
  {
    var n := |gen|;
    var p, q := Clock(a, bit, gen), Clock(b, bit, gen);
    assert p[n - 1] == q[n - 1];
    forall i | 1 <= i < n ensures a[i] == b[i] {
      assert p[i - 1] == q[i - 1];
    }
  }

  /** With constant term 1, the same bits keep different registers different. */
  lemma {:induction false} RunInjective(a: Bits, b: Bits, msg: Bits, gen: Bits)
    requires |a| == |b| == |gen| > 0 && gen[|gen| - 1]
    requires Run(a, msg, gen) == Run(b, msg, gen)
    ensures a == b
    decreases |msg|
  {
    if msg != [] {
      RunInjective(Clock(a, msg[0], gen), Clock(b, msg[0], gen), msg[1..], gen);
      ClockInjective(a, b, msg[0], gen);
    }
  }

  /** Up to |gen| bits leave the same state only if they are the same bits. */
  lemma WindowInjective(reg: Bits, u: Bits, v: Bits, gen: Bits)
    requires |reg| == |gen| > 0 && gen[|gen| - 1]
    requires |u| == |v| <= |gen|
    requires Run(reg, u, gen) == Run(reg, v, gen)
    ensures u == v
  {
    RunPreload(reg, u, gen);
    RunPreload(reg, v, gen);
    var p, q := XorLead(reg, u), XorLead(reg, v);
    RunInjective(p, q, Zeros(|u|), gen);
    forall i | 0 <= i < |u| ensures u[i] == v[i] {
      assert p[i] == q[i];
    }
  }

  /** Feeding the register its own content clears it. */
  lemma SelfFeedClears(reg: Bits, gen: Bits)
    requires |reg| == |gen| > 0
    ensures Run(reg, reg, gen) == Zeros(|gen|)
  {
    RunPreload(reg, reg, gen);
    assert XorLead(reg, reg) == Zeros(|gen|);
    RunZeros(|gen|, gen);
  }

  /** A message followed by a check of |gen| bits leaves the zero residue exactly when that
      check is the register content. */
  lemma ResidueZero(reg: Bits, msg: Bits, check: Bits, gen: Bits)
    requires |reg| == |check| == |gen| > 0 && gen[|gen| - 1]
    ensures Run(reg, msg + check, gen) == Zeros(|gen|) <==> check == Run(reg, msg, gen)
  {
    var c := Run(reg, msg, gen);
    RunAppend(reg, msg, check, gen);
    SelfFeedClears(c, gen);
    if Run(c, check, gen) == Zeros(|gen|) {
      WindowInjective(c, check, c, gen);
    }
  }

  /** `x` and `y` differ somewhere, and only inside `width` consecutive places. */
  ghost predicate IsBurst<T>(x: seq<T>, y: seq<T>, at: nat, width: nat)
  {
    && |x| == |y|
    && x != y
    && at + width <= |x|
    && x[..at] == y[..at]
    && x[at + width..] == y[at + width..]
  }

  /** A message that agrees outside a window is three pieces around that window. */
  lemma RunAround(reg: Bits, x: Bits, at: nat, width: nat, gen: Bits)
    requires |reg| == |gen| > 0 && at + width <= |x|
    ensures Run(reg, x, gen)
         == Run(Run(Run(reg, x[..at], gen), x[at..at + width], gen), x[at + width..], gen)
  {
    assert x == x[..at + width] + x[at + width..];
    assert x[..at + width] == x[..at] + x[at..at + width];
    RunAppend(reg, x[..at + width], x[at + width..], gen);
    RunAppend(reg, x[..at], x[at..at + width], gen);
  }

  lemma Reassemble(x: Bits, at: nat, width: nat)
    requires at + width <= |x|
    ensures x == x[..at] + x[at..at + width] + x[at + width..]
  {
  }

  /** Any burst no wider than the generator's degree changes the check. */
  lemma BurstDetected(reg: Bits, x: Bits, y: Bits, at: nat, width: nat, gen: Bits)
    requires |reg| == |gen| > 0 && gen[|gen| - 1]
    requires IsBurst(x, y, at, width) && width <= |gen|
    ensures Run(reg, x, gen) != Run(reg, y, gen)
  {
    RunAround(reg, x, at, width, gen);
    RunAround(reg, y, at, width, gen);
    var c := Run(reg, x[..at], gen);
    var u, v := x[at..at + width], y[at..at + width];
    Reassemble(x, at, width);
    Reassemble(y, at, width);
    if Run(reg, x, gen) == Run(reg, y, gen) {
      RunInjective(Run(c, u, gen), Run(c, v, gen), x[at + width..], gen);
      WindowInjective(c, u, v, gen);
    }
  }
}
