/** Counting who holds which index: in options, lists, lists of options and bit masks. */
module Ownership {
  import opened Wrappers

  function HeldBy(o: Option<nat>, x: nat): nat {
    if o == Some(x) then 1 else 0
  }

  function Size(o: Option<nat>): nat {
    if o.Some? then 1 else 0
  }

  // How often `x` occurs in `q`.
  function Times(q: seq<nat>, x: nat): nat {
    if q == [] then 0 else (if q[0] == x then 1 else 0) + Times(q[1..], x)
  }

  function HeldIn(os: seq<Option<nat>>, x: nat): nat {
    if os == [] then 0 else HeldBy(os[0], x) + HeldIn(os[1..], x)
  }

  function Sizes(os: seq<Option<nat>>): nat {
    if os == [] then 0 else Size(os[0]) + Sizes(os[1..])
  }

  function Bit(bits: seq<bool>, x: nat): nat {
    if x < |bits| && bits[x] then 1 else 0
  }

  function Ones(bits: seq<bool>): (n: nat)
    ensures n <= |bits|
  {
    if bits == [] then 0 else Bit(bits, 0) + Ones(bits[1..])
  }

  lemma {:induction false} TimesAppend(q: seq<nat>, i: nat, x: nat)
    ensures Times(q + [i], x) == Times(q, x) + if i == x then 1 else 0
  {
    if q == [] {
      assert [] + [i] == [i];
    } else {
      TimesAppend(q[1..], i, x);
      assert (q + [i])[1..] == q[1..] + [i];
    }
  }

  lemma {:induction false} HeldInUpdate(os: seq<Option<nat>>, i: nat, o: Option<nat>, x: nat)
    requires i < |os|
    ensures HeldIn(os[i := o], x) + HeldBy(os[i], x) == HeldIn(os, x) + HeldBy(o, x)
  {
    var us := os[i := o];
    if i == 0 {
      assert us[1..] == os[1..];
    } else {
      assert us[1..] == os[1..][i - 1 := o];
      HeldInUpdate(os[1..], i - 1, o, x);
    }
  }

  lemma {:induction false} SizesUpdate(os: seq<Option<nat>>, i: nat, o: Option<nat>)
    requires i < |os|
    ensures Sizes(os[i := o]) + Size(os[i]) == Sizes(os) + Size(o)
  {
    var us := os[i := o];
    if i == 0 {
      assert us[1..] == os[1..];
    } else {
      assert us[1..] == os[1..][i - 1 := o];
      SizesUpdate(os[1..], i - 1, o);
    }
  }

  lemma {:induction false} OnesUpdate(bits: seq<bool>, i: nat, b: bool)
    requires i < |bits|
    ensures Ones(bits[i := b]) + Bit(bits, i) == Ones(bits) + if b then 1 else 0
  {
    var cs := bits[i := b];
    if i == 0 {
      assert cs[1..] == bits[1..];
    } else {
      assert cs[1..] == bits[1..][i - 1 := b];
      OnesUpdate(bits[1..], i - 1, b);
    }
  }

  lemma {:induction false} AllOnes(bits: seq<bool>)
    ensures Ones(bits) == |bits| <==> false !in bits
  {
    if bits == [] {
    } else {
      AllOnes(bits[1..]);
      assert bits == [bits[0]] + bits[1..];
    }
  }
}
