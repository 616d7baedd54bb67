/** How long the two tunnel clients wait between connection attempts: `rathole.rs` and the
    Arduino `rathole_client.cpp`. Waits are in milliseconds. */
module RatholeBackoff {

  const CAP: nat := 30000

  /** One turn of the manager loop: stopped, put off (no link, little heap, not configured), or
      an attempt that failed, that lasted no more than three seconds, or that was healthy. */
  datatype Outcome = Parked | PutOff | Failed | Short | Healthy {
    predicate Attempt() {
      this != Parked && this != PutOff
    }
  }

  /** `retry` is the setting in seconds, which every turn reads anew. */
  datatype Turn = Turn(retry: nat, outcome: Outcome)

  function Min(a: nat, b: nat): nat {
    if a < b then a else b
  }

  function Max(a: nat, b: nat): nat {
    if a > b then a else b
  }

  /** `backoff_ms` of the Rust client after a turn; after an attempt it is also the wait. */
  function Rust(backoff: nat, t: Turn): nat {
    match t.outcome
    case Parked => 0
    case PutOff => backoff
    case Healthy => Min(Max(backoff, t.retry * 1000), CAP)
    case _ => Min(if backoff == 0 then t.retry * 1000 else backoff * 2, CAP)
  }

  /** The Arduino client's wait, and its `backoff_ms` after a turn. */
  function ArduinoWait(backoff: nat, t: Turn): nat {
    if t.outcome == Healthy then t.retry * 1000 else Max(backoff, t.retry * 1000)
  }

  function Arduino(backoff: nat, t: Turn): nat {
    match t.outcome
    case Parked => 0
    case PutOff => Max(backoff, t.retry * 1000)
    case _ => Min(ArduinoWait(backoff, t) * 2, CAP)
  }

  function RustAfter(backoff: nat, ts: seq<Turn>): nat {
    if ts == [] then backoff else Rust(RustAfter(backoff, ts[..|ts| - 1]), ts[|ts| - 1])
  }

  function ArduinoAfter(backoff: nat, ts: seq<Turn>): nat {
    if ts == [] then backoff else Arduino(ArduinoAfter(backoff, ts[..|ts| - 1]), ts[|ts| - 1])
  }

  /** Over any run without a stop, whatever the settings and the outcomes, the Rust client's
      waits never get shorter, and they never exceed the cap. */
  lemma {:induction false} RustNeverShortens(backoff: nat, ts: seq<Turn>)
    requires backoff <= CAP && forall i :: 0 <= i < |ts| ==> !ts[i].outcome.Parked?
    ensures backoff <= RustAfter(backoff, ts) <= CAP
  {
    if ts == [] {
    } else {
      RustNeverShortens(backoff, ts[..|ts| - 1]);
    }
  }

  // ------------------------------------------------------- what a healthy session resets --

  // The outcomes of the attempts since the last stop.
  function Attempts(ts: seq<Turn>): seq<Outcome> {
    if ts == [] then []
    else
      var before, last := Attempts(ts[..|ts| - 1]), ts[|ts| - 1].outcome;
      if last.Parked? then [] else if last.PutOff? then before else before + [last]
  }

  // No attempt behind the first failed or was short.
  predicate HealthyBehindFirst(os: seq<Outcome>) {
    forall i :: 0 < i < |os| ==> os[i] == Healthy
  }

  ghost predicate Constant(ts: seq<Turn>, retry: nat) {
    forall i :: 0 <= i < |ts| ==> ts[i].retry == retry
  }

  // Where a backoff stands that has seen these attempts with this base.
  predicate Standing(backoff: nat, os: seq<Outcome>, base: nat) {
    if os == [] then backoff == 0
    else if HealthyBehindFirst(os) || base == 0 then backoff == Min(base, CAP)
    else if base < CAP then base < backoff <= CAP
    else backoff == CAP
  }

  lemma OneMoreAttempt(backoff: nat, os: seq<Outcome>, t: Turn)
    requires t.outcome.Attempt() && Standing(backoff, os, t.retry * 1000)
    ensures Standing(Rust(backoff, t), os + [t.outcome], t.retry * 1000)
  {
    var after := os + [t.outcome];
    assert after[|os|] == t.outcome;
    assert forall i :: 0 <= i < |os| ==> after[i] == os[i];
    assert HealthyBehindFirst(after) <==> HealthyBehindFirst(os) && (os == [] || t.outcome == Healthy);
  }

  lemma {:induction false} Stands(ts: seq<Turn>, retry: nat)
    requires Constant(ts, retry)
    ensures Standing(RustAfter(0, ts), Attempts(ts), retry * 1000)
  {
    if ts == [] {
    } else {
      var before, last := ts[..|ts| - 1], ts[|ts| - 1];
      Stands(before, retry);
      if last.outcome.Attempt() { OneMoreAttempt(RustAfter(0, before), Attempts(before), last); }
    }
  }

  /** A healthy session is meant to bring the wait back to the configured base, and on the
      Arduino it does. From power-on with any setting, the Rust client's wait behind it is the
      base exactly when the base does not exceed the cap and, unless it is zero or the cap, no
      attempt since the last stop but the first went wrong. */
  lemma HealthyResetsIff(ts: seq<Turn>, retry: nat)
    requires Constant(ts, retry)
    ensures var t, base, os := Turn(retry, Healthy), retry * 1000, Attempts(ts);
            && ArduinoWait(ArduinoAfter(0, ts), t) == base
            && (Rust(RustAfter(0, ts), t) == base
                <==> base <= CAP && (base == 0 || base == CAP || HealthyBehindFirst(os)))
  {
    Stands(ts, retry);
  }

  lemma {:induction false} AtMostCap(ts: seq<Turn>)
    ensures RustAfter(0, ts) <= CAP
  {
    if ts == [] {
    } else {
      AtMostCap(ts[..|ts| - 1]);
    }
  }

  /** The same of any backoff the client can have, settings changing from turn to turn. */
  lemma ResetsFromIff(ts: seq<Turn>, retry: nat)
    ensures var backoff := RustAfter(0, ts);
            Rust(backoff, Turn(retry, Healthy)) == retry * 1000 <==> backoff <= retry * 1000 <= CAP
  {
    AtMostCap(ts);
  }

  // ------------------------------------------------------------------ how long they wait --

  function Doubled(base: nat, n: nat): (d: nat)
    ensures base <= d && (d == 0 <==> base == 0)
  {
    if n == 0 then base else 2 * Doubled(base, n - 1)
  }

  // The attempts behind the first that were not healthy.
  function Doublings(os: seq<Outcome>): nat {
    if |os| <= 1 then 0 else Doublings(os[..|os| - 1]) + if os[|os| - 1].Healthy? then 0 else 1
  }

  // The attempts from the last healthy one on.
  function SinceHealthy(os: seq<Outcome>): nat {
    if os == [] then 0
    else if os[|os| - 1].Healthy? then 1 else SinceHealthy(os[..|os| - 1]) + 1
  }

  lemma OneMoreTurn(d: nat, t: Turn)
    requires t.outcome.Attempt() && t.retry * 1000 <= d && (d == 0 ==> t.retry == 0)
    ensures Rust(Min(d, CAP), t) == Min(if t.outcome.Healthy? then d else 2 * d, CAP)
  {
  }

  /** From power-on with any setting and any history, the Rust client's backoff is the base doubled
      for every attempt since the last stop that was not healthy, but the first, up to the cap. */
  lemma {:induction false} RustWaits(ts: seq<Turn>, retry: nat)
    requires Constant(ts, retry)
    ensures var os := Attempts(ts);
            RustAfter(0, ts) == if os == [] then 0 else Min(Doubled(retry * 1000, Doublings(os)), CAP)
  {
    if ts == [] {
    } else {
      var before, last := ts[..|ts| - 1], ts[|ts| - 1].outcome;
      RustWaits(before, retry);
      if last.Attempt() {
        var os := Attempts(before);
        assert (os + [last])[..|os|] == os;
        if os != [] { OneMoreTurn(Doubled(retry * 1000, Doublings(os)), ts[|ts| - 1]); }
      }
    }
  }

  /** The Arduino client waits the base, doubled for every attempt from the last healthy one on, up
      to the cap or the base. */
  lemma {:induction false} ArduinoWaits(ts: seq<Turn>, retry: nat)
    requires Constant(ts, retry)
    ensures ArduinoWait(ArduinoAfter(0, ts), Turn(retry, Failed))
            == Max(Min(Doubled(retry * 1000, SinceHealthy(Attempts(ts))), CAP), retry * 1000)
  {
    if ts == [] {
    } else {
      var before, last := ts[..|ts| - 1], ts[|ts| - 1].outcome;
      ArduinoWaits(before, retry);
      if last.Attempt() { assert (Attempts(before) + [last])[..|Attempts(before)|] == Attempts(before); }
    }
  }

  /** Turns without an attempt leave the Rust client's backoff alone; the Arduino client takes the
      longest setting it meets meanwhile. */
  lemma {:induction false} PutOffRemembers(backoff: nat, ts: seq<Turn>)
    requires forall i :: 0 <= i < |ts| ==> ts[i].outcome == PutOff
    ensures var a := ArduinoAfter(backoff, ts);
            && RustAfter(backoff, ts) == backoff
            && backoff <= a && (forall i :: 0 <= i < |ts| ==> ts[i].retry * 1000 <= a)
            && (a == backoff || exists i :: 0 <= i < |ts| && ts[i].retry * 1000 == a)
  {
    if ts == [] {
    } else {
      PutOffRemembers(backoff, ts[..|ts| - 1]);
    }
  }

  // --------------------------------------------------------------- the two clients compared --

  // The Arduino client doubles after the wait, the Rust client before it.
  predicate Stepped(r: nat, a: nat, base: nat) {
    && r <= CAP && (r == 0 || base <= r)
    && ((r == 0 && a <= base) || a == Min(r * 2, CAP))
  }

  lemma {:induction false} InStep(retry: nat, ts: seq<Turn>)
    requires retry * 1000 <= CAP && Constant(ts, retry)
    requires forall i :: 0 <= i < |ts| ==> ts[i].outcome != Healthy
    ensures Stepped(RustAfter(0, ts), ArduinoAfter(0, ts), retry * 1000)
  {
    if ts == [] {
    } else {
      InStep(retry, ts[..|ts| - 1]);
    }
  }

  /** Before the first healthy session the two clients wait the same exactly when the setting
      does not exceed the cap; otherwise the Rust client always waits less. */
  lemma SameUntilHealthyIff(retry: nat, ts: seq<Turn>, outcome: Outcome)
    requires Constant(ts, retry) && forall i :: 0 <= i < |ts| ==> ts[i].outcome != Healthy
    requires outcome.Attempt() && outcome != Healthy
    ensures var t := Turn(retry, outcome);
            && (Rust(RustAfter(0, ts), t) == ArduinoWait(ArduinoAfter(0, ts), t) <==> retry * 1000 <= CAP)
            && (retry * 1000 > CAP ==> Rust(RustAfter(0, ts), t) < ArduinoWait(ArduinoAfter(0, ts), t))
  {
    if retry * 1000 <= CAP { InStep(retry, ts); }
  }

  /** The largest legal setting: the first failed attempt and every healthy session. */
  lemma AtSixtySeconds()
    ensures Rust(0, Turn(60, Failed)) == 30000 && ArduinoWait(0, Turn(60, Failed)) == 60000
    ensures forall b: nat :: Rust(b, Turn(60, Healthy)) == 30000 && ArduinoWait(b, Turn(60, Healthy)) == 60000
  {
  }

  /** The manager's loop variable. */
  class Backoff {
    var backoffMs: nat

    method Park()
      modifies this
      ensures backoffMs == Rust(old(backoffMs), Turn(0, Parked))
    {
      backoffMs := 0;
    }

    /** The end of a turn, and the wait in slices of 100 ms that a kick cuts short. */
    method AfterAttempt(t: Turn, kickAt: nat) returns (waited: nat)
      requires t.outcome.Attempt()
      modifies this
      ensures backoffMs == Rust(old(backoffMs), t)
      ensures waited % 100 == 0 && waited < backoffMs + 100
      ensures waited < backoffMs ==> waited == kickAt * 100
    {
      var base := Max(backoffMs, t.retry * 1000);
      if t.outcome == Healthy { backoffMs := 0; }
      backoffMs := Min(if backoffMs == 0 then base else backoffMs * 2, CAP);
      waited := 0;
      while waited < backoffMs
        invariant waited % 100 == 0 && waited < backoffMs + 100
        modifies {}
      {
        if waited == kickAt * 100 { return; }
        waited := waited + 100;
      }
    }
  }
}
