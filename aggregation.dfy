/**
 * The accumulation shared by the three generations of `Subject`: every accepted
 * response adds, for every time sample `j`, the weighted encoding of its left
 * (right) sample into the slice `[j * H, j * H + H)` of the left (right) matrix.
 * A `Rule` records how a generation scales the sample, weights the harmonics and
 * steers the encoder; `Matrix` is the specification that the loops meet.
 */
module Aggregation {
  import opened Harmonics
  import opened Samples

  /** What the accumulation reads of an accepted response. */
  datatype Sampled = Sampled(azimuth: real, elevation: real, values: seq<real>)

  /** What is done to a sample before it is encoded. */
  datatype Prescale = Unscaled | DivideBy(divisor: real)

  /** What each encoded harmonic is multiplied by before it is added. */
  datatype Weighting =
    | Unweighted       // Hrir.hpp
    | HalveZeroth      // 2D in Subject.hpp and HrirCreator.hpp: harmonics[0] *= 0.5
    | OddDegree        // 3D in Subject.hpp: 2l + 1
    | OddDegreeFourPi  // 3D in HrirCreator.hpp: 2l + 1 when the order is 0, (2l + 1) * 4 pi otherwise

  /** A generation's rule; `steered` says whether the encoder is given the elevation. */
  datatype Rule = Rule(prescale: Prescale, weighting: Weighting, steered: bool)

  /** A rule that never divides by zero. */
  predicate Admissible(rule: Rule) {
    rule.prescale.DivideBy? ==> rule.prescale.divisor != 0.0
  }

  function Prescaled(p: Prescale, x: real): real
    requires p.DivideBy? ==> p.divisor != 0.0
  {
    match p
    case Unscaled => x
    case DivideBy(d) => x / d
  }

  /** The factor harmonic `k` is multiplied by. */
  function Weight(w: Weighting, enc: Encoder, k: nat): real {
    match w
    case Unweighted => 1.0
    case HalveZeroth => if k == 0 then 0.5 else 1.0
    case OddDegree => 2.0 * enc.degree(k) as real + 1.0
    case OddDegreeFourPi =>
      if enc.harmonicOrder(k) == 0 then 2.0 * enc.degree(k) as real + 1.0
      else (2.0 * enc.degree(k) as real + 1.0) * 4.0 * HoaPi
  }

  /** The elevation the encoder is set to for a response. */
  function Steering(r: Sampled, rule: Rule): real {
    if rule.steered then r.elevation else 0.0
  }

  /** The encoding of sample `j` of `channel` of `r`, before weighting. */
  function Projection(r: Sampled, channel: nat, j: nat, enc: Encoder, rule: Rule): seq<real>
    requires Admissible(rule)
  {
    enc.process(r.azimuth, Steering(r, rule), Prescaled(rule.prescale, Sample(r.values, channel, j)))
  }

  /** What `r` adds at harmonic `k` of time sample `j`. */
  function Contribution(r: Sampled, channel: nat, j: nat, k: nat, enc: Encoder, rule: Rule): real
    requires Admissible(rule)
  {
    var p := Projection(r, channel, j, enc, rule);
    if k < |p| then Weight(rule.weighting, enc, k) * p[k] else 0.0
  }

  /** The sum of the contributions of all responses at harmonic `k` of time sample `j`. */
  function Cell(rs: seq<Sampled>, channel: nat, j: nat, k: nat, enc: Encoder, rule: Rule): real
    requires rs == [] || Admissible(rule)
  {
    if rs == [] then 0.0
    else Cell(rs[..|rs| - 1], channel, j, k, enc, rule) + Contribution(rs[|rs| - 1], channel, j, k, enc, rule)
  }

  /** The matrix of one channel: `size` time samples of `H` harmonics each, time-major. */
  function Matrix(rs: seq<Sampled>, channel: nat, size: nat, H: nat, enc: Encoder, rule: Rule): (m: seq<real>)
    requires rs == [] || Admissible(rule)
    requires H > 0
    ensures |m| == size * H
  {
    seq(size * H, t requires 0 <= t < size * H => Cell(rs, channel, t / H, t % H, enc, rule))
  }

  /**
   * `m_size` after the discovery loop: the largest per-channel sample count of
   * the accepted responses, and 0 when there is none.
   */
  function Longest(rs: seq<Sampled>): nat {
    if rs == [] then 0
    else
      var m, s := Longest(rs[..|rs| - 1]), SamplesPerChannel(rs[|rs| - 1].values);
      if m < s then s else m
  }

  /** One more response raises the longest length to its own when it is longer. */
  lemma {:induction false} LongestSnoc(rs: seq<Sampled>, r: Sampled)
    ensures Longest(rs + [r]) == if Longest(rs) < SamplesPerChannel(r.values) then SamplesPerChannel(r.values) else Longest(rs)
  {
    assert (rs + [r])[..|rs|] == rs;
  }

  /** `Longest` is the maximum: no response is longer, and some response is that long unless there is none. */
  lemma {:induction false} LongestIsMaximum(rs: seq<Sampled>)
    ensures forall k :: 0 <= k < |rs| ==> SamplesPerChannel(rs[k].values) <= Longest(rs)
    ensures rs == [] ==> Longest(rs) == 0
    ensures rs != [] ==> exists k :: 0 <= k < |rs| && SamplesPerChannel(rs[k].values) == Longest(rs)
  {
    if rs != [] {
      var n := |rs| - 1;
      var prefix := rs[..n];
      LongestIsMaximum(prefix);
      forall k | 0 <= k < n ensures SamplesPerChannel(rs[k].values) <= Longest(rs) {
        assert prefix[k] == rs[k];
      }
      if n > 0 && Longest(prefix) >= SamplesPerChannel(rs[n].values) {
        var k :| 0 <= k < n && SamplesPerChannel(prefix[k].values) == Longest(prefix);
        assert prefix[k] == rs[k];
      }
    }
  }

  // ---------------------------------------------------------------------------
  // Properties of the specification
  // ---------------------------------------------------------------------------

  lemma {:induction false} MulSucc(a: nat, c: nat)
    ensures (a + 1) * c == a * c + c
  {
  }

  lemma {:induction false} MulLe(a: nat, b: nat, c: nat)
    requires a <= b
    ensures a * c <= b * c
    decreases b - a
  {
    if a < b {
      MulSucc(a, c);
      MulLe(a + 1, b, c);
    }
  }

  /** Index `t` of the slice that starts at `j * H` is harmonic `t - j * H` of time sample `j`. */
  lemma {:induction false} SliceIndex(j: nat, H: nat, t: nat)
    requires j * H <= t < j * H + H
    ensures t / H == j && t % H == t - j * H
  {
    var q, m := t / H, t % H;
    assert t == q * H + m && 0 <= m < H;
    if q < j {
      MulSucc(q, H);
      MulLe(q + 1, j, H);
      assert false;
    } else if q > j {
      MulSucc(j, H);
      MulLe(j + 1, q, H);
      assert false;
    }
  }

  /** Index `j * H + k` of the flat matrix is harmonic `k` of time sample `j`. */
  lemma {:induction false} MatrixAt(rs: seq<Sampled>, channel: nat, size: nat, H: nat, enc: Encoder, rule: Rule, j: nat, k: nat)
    requires rs == [] || Admissible(rule)
    requires j < size && k < H
    ensures j * H + k < size * H
    ensures Matrix(rs, channel, size, H, enc, rule)[j * H + k] == Cell(rs, channel, j, k, enc, rule)
  {
    MulSucc(j, H);
    MulLe(j + 1, size, H);
    SliceIndex(j, H, j * H + k);
  }

  /** Contributions add up over a split list of responses. */
  lemma {:induction false} CellAppend(a: seq<Sampled>, b: seq<Sampled>, channel: nat, j: nat, k: nat, enc: Encoder, rule: Rule)
    requires Admissible(rule)
    ensures Cell(a + b, channel, j, k, enc, rule) == Cell(a, channel, j, k, enc, rule) + Cell(b, channel, j, k, enc, rule)
    decreases |b|
  {
    if b == [] {
      assert a + b == a;
    } else {
      var n := |b| - 1;
      assert (a + b)[..|a + b| - 1] == a + b[..n];
      CellAppend(a, b[..n], channel, j, k, enc, rule);
    }
  }

  /** Removing the last of `rs` and a matching element of `qs` keeps the multisets equal. */
  lemma RemoveMatched<T>(rs: seq<T>, qs: seq<T>, i: nat)
    requires rs != [] && multiset(rs) == multiset(qs)
    requires i < |qs| && qs[i] == rs[|rs| - 1]
    ensures multiset(rs[..|rs| - 1]) == multiset(qs[..i] + qs[i + 1..])
  {
    var n := |rs| - 1;
    assert rs == rs[..n] + [rs[n]];
    assert qs == qs[..i] + [qs[i]] + qs[i + 1..];
    var m := multiset{rs[n]};
    assert multiset(rs[..n]) + m == multiset(qs[..i]) + multiset(qs[i + 1..]) + m;
    assert multiset(rs[..n]) == multiset(rs[..n]) + m - m;
  }

  /** A cell is the same sum whatever the order of the responses: it depends only on their multiset. */
  lemma {:induction false} CellPermutation(rs: seq<Sampled>, qs: seq<Sampled>, channel: nat, j: nat, k: nat, enc: Encoder, rule: Rule)
    requires Admissible(rule)
    requires multiset(rs) == multiset(qs)
    ensures Cell(rs, channel, j, k, enc, rule) == Cell(qs, channel, j, k, enc, rule)
    decreases |rs|
  {
    if rs == [] {
      assert |qs| == |multiset(qs)| == 0;
    } else {
      var n := |rs| - 1;
      var x := rs[n];
      assert rs == rs[..n] + [x];
      assert x in multiset(qs);
      var i :| 0 <= i < |qs| && qs[i] == x;
      var front, back := qs[..i], qs[i + 1..];
      assert qs == front + ([x] + back);
      var rest := front + back;
      RemoveMatched(rs, qs, i);
      CellPermutation(rs[..n], rest, channel, j, k, enc, rule);
      CellAppend(front, [x] + back, channel, j, k, enc, rule);
      CellAppend([x], back, channel, j, k, enc, rule);
      CellAppend(front, back, channel, j, k, enc, rule);
      assert [x][..0] == [];
    }
  }

  /** The matrices are the same for every reordering of the responses. */
  lemma {:induction false} MatrixPermutation(rs: seq<Sampled>, qs: seq<Sampled>, channel: nat, size: nat, H: nat, enc: Encoder, rule: Rule)
    requires Admissible(rule) && H > 0
    requires multiset(rs) == multiset(qs)
    ensures Matrix(rs, channel, size, H, enc, rule) == Matrix(qs, channel, size, H, enc, rule)
  {
    forall t | 0 <= t < size * H
      ensures Matrix(rs, channel, size, H, enc, rule)[t] == Matrix(qs, channel, size, H, enc, rule)[t]
    {
      CellPermutation(rs, qs, channel, t / H, t % H, enc, rule);
    }
  }

  /** Harmonics past the encoder's own count stay zero (an encoder smaller than the stride). */
  lemma {:induction false} CellPastEncoder(rs: seq<Sampled>, channel: nat, j: nat, k: nat, enc: Encoder, rule: Rule)
    requires rs == [] || Admissible(rule)
    requires enc.WellFormed() && k >= enc.Size()
    ensures Cell(rs, channel, j, k, enc, rule) == 0.0
  {
    if rs != [] {
      CellPastEncoder(rs[..|rs| - 1], channel, j, k, enc, rule);
      var r := rs[|rs| - 1];
      var x := Prescaled(rule.prescale, Sample(r.values, channel, j));
      assert |enc.process(r.azimuth, Steering(r, rule), x)| == enc.Size();
    }
  }

  /** With a linear encoder, a response adds nothing past its own length: shorter responses are zero padded. */
  lemma {:induction false} ContributionPastEnd(r: Sampled, channel: nat, j: nat, k: nat, enc: Encoder, rule: Rule)
    requires Admissible(rule) && enc.Linear()
    requires j >= SamplesPerChannel(r.values) || channel >= 2
    ensures Contribution(r, channel, j, k, enc, rule) == 0.0
  {
    var el := Steering(r, rule);
    assert Prescaled(rule.prescale, Sample(r.values, channel, j)) == 0.0;
    assert enc.process(r.azimuth, el, 0.0) == Scaled(0.0, enc.process(r.azimuth, el, 1.0));
  }

  /** An unsteered rule never reads the elevation: responses that agree on azimuth and frames give the same cell. */
  lemma {:induction false} CellIgnoresElevation(rs: seq<Sampled>, qs: seq<Sampled>, channel: nat, j: nat, k: nat, enc: Encoder, rule: Rule)
    requires rs == [] || Admissible(rule)
    requires !rule.steered && |qs| == |rs|
    requires forall i :: 0 <= i < |rs| ==> qs[i].azimuth == rs[i].azimuth && qs[i].values == rs[i].values
    ensures Cell(qs, channel, j, k, enc, rule) == Cell(rs, channel, j, k, enc, rule)
  {
    if rs != [] {
      var n := |rs| - 1;
      CellIgnoresElevation(rs[..n], qs[..n], channel, j, k, enc, rule);
      assert Projection(qs[n], channel, j, enc, rule) == Projection(rs[n], channel, j, enc, rule);
    }
  }

  /** The same for whole matrices. */
  lemma {:induction false} MatrixIgnoresElevation(rs: seq<Sampled>, qs: seq<Sampled>, channel: nat, size: nat, H: nat, enc: Encoder, rule: Rule)
    requires rs == [] || Admissible(rule)
    requires H > 0 && !rule.steered && |qs| == |rs|
    requires forall i :: 0 <= i < |rs| ==> qs[i].azimuth == rs[i].azimuth && qs[i].values == rs[i].values
    ensures Matrix(qs, channel, size, H, enc, rule) == Matrix(rs, channel, size, H, enc, rule)
  {
    forall t | 0 <= t < size * H
      ensures Matrix(qs, channel, size, H, enc, rule)[t] == Matrix(rs, channel, size, H, enc, rule)[t]
    {
      CellIgnoresElevation(rs, qs, channel, t / H, t % H, enc, rule);
    }
  }

  /** Every weighting is a per-harmonic factor applied to the unweighted cell. */
  lemma {:induction false} CellWeighted(rs: seq<Sampled>, channel: nat, j: nat, k: nat, enc: Encoder, p: Prescale, w: Weighting, steered: bool)
    requires rs == [] || Admissible(Rule(p, w, steered))
    ensures Cell(rs, channel, j, k, enc, Rule(p, w, steered))
         == Weight(w, enc, k) * Cell(rs, channel, j, k, enc, Rule(p, Unweighted, steered))
  {
    if rs != [] {
      var n := |rs| - 1;
      var weighted, plain := Rule(p, w, steered), Rule(p, Unweighted, steered);
      CellWeighted(rs[..n], channel, j, k, enc, p, w, steered);
      ContributionWeighted(rs[n], channel, j, k, enc, p, w, steered);
      var a := Cell(rs[..n], channel, j, k, enc, plain);
      var b := Contribution(rs[n], channel, j, k, enc, plain);
      assert Cell(rs, channel, j, k, enc, plain) == a + b;
      assert Cell(rs, channel, j, k, enc, weighted)
          == Cell(rs[..n], channel, j, k, enc, weighted) + Contribution(rs[n], channel, j, k, enc, weighted);
      Distribute(Weight(w, enc, k), a, b);
    }
  }

  lemma {:induction false} ContributionWeighted(r: Sampled, channel: nat, j: nat, k: nat, enc: Encoder, p: Prescale, w: Weighting, steered: bool)
    requires Admissible(Rule(p, w, steered))
    ensures Contribution(r, channel, j, k, enc, Rule(p, w, steered))
         == Weight(w, enc, k) * Contribution(r, channel, j, k, enc, Rule(p, Unweighted, steered))
  {
    assert Projection(r, channel, j, enc, Rule(p, w, steered)) == Projection(r, channel, j, enc, Rule(p, Unweighted, steered));
  }

  lemma {:induction false} Distribute(c: real, a: real, b: real)
    ensures c * a + c * b == c * (a + b)
  {
  }

  /**
   * The 3D weights of HrirCreator.hpp are those of Subject.hpp times 4 pi on
   * every harmonic whose order is not 0.
   */
  lemma {:induction false} CellFourPi(rs: seq<Sampled>, channel: nat, j: nat, k: nat, enc: Encoder, p: Prescale, steered: bool)
    requires rs == [] || Admissible(Rule(p, OddDegree, steered))
    ensures Cell(rs, channel, j, k, enc, Rule(p, OddDegreeFourPi, steered))
         == (if enc.harmonicOrder(k) == 0 then 1.0 else 4.0 * HoaPi) * Cell(rs, channel, j, k, enc, Rule(p, OddDegree, steered))
  {
    CellWeighted(rs, channel, j, k, enc, p, OddDegreeFourPi, steered);
    CellWeighted(rs, channel, j, k, enc, p, OddDegree, steered);
  }

  /** With a linear encoder, dividing every sample by `d` divides the cell by `d`. */
  lemma {:induction false} CellPrescaled(rs: seq<Sampled>, channel: nat, j: nat, k: nat, enc: Encoder, d: real, w: Weighting, steered: bool)
    requires d != 0.0 && enc.Linear()
    ensures Cell(rs, channel, j, k, enc, Rule(DivideBy(d), w, steered))
         == Cell(rs, channel, j, k, enc, Rule(Unscaled, w, steered)) / d
  {
    if rs != [] {
      var n := |rs| - 1;
      CellPrescaled(rs[..n], channel, j, k, enc, d, w, steered);
      ContributionPrescaled(rs[n], channel, j, k, enc, d, w, steered);
      var a := Cell(rs[..n], channel, j, k, enc, Rule(Unscaled, w, steered));
      var b := Contribution(rs[n], channel, j, k, enc, Rule(Unscaled, w, steered));
      SumQuotient(a, b, d);
    }
  }

  lemma {:induction false} ContributionPrescaled(r: Sampled, channel: nat, j: nat, k: nat, enc: Encoder, d: real, w: Weighting, steered: bool)
    requires d != 0.0 && enc.Linear()
    ensures Contribution(r, channel, j, k, enc, Rule(DivideBy(d), w, steered))
         == Contribution(r, channel, j, k, enc, Rule(Unscaled, w, steered)) / d
  {
    var divided, plain := Rule(DivideBy(d), w, steered), Rule(Unscaled, w, steered);
    var x := Sample(r.values, channel, j);
    assert Steering(r, divided) == Steering(r, plain);
    var u := enc.process(r.azimuth, Steering(r, plain), 1.0);
    ContributionLinear(r, channel, j, k, enc, divided);
    ContributionLinear(r, channel, j, k, enc, plain);
    var p, q := Contribution(r, channel, j, k, enc, divided), Contribution(r, channel, j, k, enc, plain);
    if k < |u| {
      assert Prescaled(divided.prescale, x) == x / d;
      assert Prescaled(plain.prescale, x) == x;
      Quotient(Weight(w, enc, k), x, u[k], d, p, q);
    } else {
      SumQuotient(0.0, 0.0, d);
    }
  }

  /** With a linear encoder, a contribution is the weighted, prescaled sample times the encoding of 1. */
  lemma {:induction false} ContributionLinear(r: Sampled, channel: nat, j: nat, k: nat, enc: Encoder, rule: Rule)
    requires Admissible(rule) && enc.Linear()
    ensures var u := enc.process(r.azimuth, Steering(r, rule), 1.0);
      Contribution(r, channel, j, k, enc, rule)
        == if k < |u| then Weight(rule.weighting, enc, k) * (Prescaled(rule.prescale, Sample(r.values, channel, j)) * u[k]) else 0.0
  {
    var x := Prescaled(rule.prescale, Sample(r.values, channel, j));
    var u := enc.process(r.azimuth, Steering(r, rule), 1.0);
    assert Projection(r, channel, j, enc, rule) == enc.process(r.azimuth, Steering(r, rule), x) == Scaled(x, u);
  }

  lemma {:induction false} SumQuotient(a: real, b: real, d: real)
    requires d != 0.0
    ensures a / d + b / d == (a + b) / d
  {
  }

  lemma {:induction false} Quotient(a: real, x: real, b: real, d: real, p: real, q: real)
    requires d != 0.0 && p == a * ((x / d) * b) && q == a * (x * b)
    ensures p == q / d
  {
  }

  // ---------------------------------------------------------------------------
  // The loops
  // ---------------------------------------------------------------------------

  /**
   * The weighting step after `encoder.process`: for the 3D rules a loop over the
   * harmonics, for the 2D rule `harmonics[0] *= 0.5`.
   */
  method Weigh(harmonics: seq<real>, enc: Encoder, w: Weighting) returns (weighted: seq<real>)
    ensures |weighted| == |harmonics|
    ensures forall k :: 0 <= k < |harmonics| ==> weighted[k] == Weight(w, enc, k) * harmonics[k]
  {
    weighted := harmonics;
    match w
    case Unweighted =>
    case HalveZeroth =>
      if |weighted| > 0 {
        weighted := weighted[0 := weighted[0] * 0.5];
      }
    case _ =>
      var k := 0;
      while k < |weighted|
        invariant 0 <= k <= |weighted| == |harmonics|
        invariant forall i :: 0 <= i < k ==> weighted[i] == Weight(w, enc, i) * harmonics[i]
        invariant forall i :: k <= i < |weighted| ==> weighted[i] == harmonics[i]
      {
        weighted := weighted[k := weighted[k] * Weight(w, enc, k)];
        k := k + 1;
      }
  }

  /** What `ProcessSample` adds at index `t` of the matrix. */
  function Processed(enc: Encoder, w: Weighting, azimuth: real, elevation: real, x: real, offset: nat, t: nat): real {
    var p := enc.process(azimuth, elevation, x);
    if offset <= t < offset + |p| then Weight(w, enc, t - offset) * p[t - offset] else 0.0
  }

  /** Encode one sample, weight it, and add it into `out` from `offset` on. */
  method ProcessSample(out: array<real>, offset: nat, enc: Encoder, w: Weighting, azimuth: real, elevation: real, x: real)
    requires enc.WellFormed() && offset + enc.Size() <= out.Length
    modifies out
    ensures forall t :: 0 <= t < out.Length ==> out[t] == old(out[t]) + Processed(enc, w, azimuth, elevation, x, offset, t)
  {
    var harmonics := enc.process(azimuth, elevation, x);
    harmonics := Weigh(harmonics, enc, w);
    Harmonics.Add(harmonics, out, offset);
  }

  /** `cur` is `init` plus the cells of the responses in `done`. */
  ghost predicate Accumulated(cur: seq<real>, init: seq<real>, done: seq<Sampled>, channel: nat, H: nat, enc: Encoder, rule: Rule)
    requires done == [] || Admissible(rule)
    requires H > 0
  {
    |cur| == |init| &&
    forall t :: 0 <= t < |cur| ==> cur[t] == init[t] + Cell(done, channel, t / H, t % H, enc, rule)
  }

  /** As `Accumulated`, and response `r` has added its time samples below index `offset`. */
  ghost predicate Partial(cur: seq<real>, init: seq<real>, done: seq<Sampled>, r: Sampled, offset: nat, channel: nat, H: nat, enc: Encoder, rule: Rule)
    requires Admissible(rule)
    requires H > 0
  {
    |cur| == |init| &&
    forall t :: 0 <= t < |cur| ==>
      cur[t] == init[t] + Cell(done, channel, t / H, t % H, enc, rule)
                + (if t < offset then Contribution(r, channel, t / H, t % H, enc, rule) else 0.0)
  }

  /** Adding time sample `j` of `r` into its slice at `j * H` advances `Partial` by one slice. */
  lemma {:induction false} PartialStep(before: seq<real>, after: seq<real>, init: seq<real>, done: seq<Sampled>, r: Sampled, j: nat, offset: nat, channel: nat, H: nat, enc: Encoder, rule: Rule)
    requires Admissible(rule) && H > 0 && enc.WellFormed() && enc.Size() <= H
    requires offset == j * H
    requires Partial(before, init, done, r, offset, channel, H, enc, rule)
    requires |after| == |before|
    requires forall t :: 0 <= t < |after| ==>
      after[t] == before[t] + Processed(enc, rule.weighting, r.azimuth, Steering(r, rule), Prescaled(rule.prescale, Sample(r.values, channel, j)), offset, t)
    ensures Partial(after, init, done, r, offset + H, channel, H, enc, rule)
  {
    var x := Prescaled(rule.prescale, Sample(r.values, channel, j));
    forall t | 0 <= t < |after|
      ensures after[t] == init[t] + Cell(done, channel, t / H, t % H, enc, rule)
                + (if t < offset + H then Contribution(r, channel, t / H, t % H, enc, rule) else 0.0)
    {
      var added := Processed(enc, rule.weighting, r.azimuth, Steering(r, rule), x, offset, t);
      assert after[t] == before[t] + added;
      if offset <= t < offset + H {
        SliceIndex(j, H, t);
        ProcessedIsContribution(r, channel, j, offset, t - offset, H, enc, rule);
      } else {
        ProcessedOutside(r, channel, j, offset, t, H, enc, rule);
      }
    }
  }

  /** Inside the slice, what `ProcessSample` adds at harmonic `k` is the response's contribution. */
  lemma {:induction false} ProcessedIsContribution(r: Sampled, channel: nat, j: nat, offset: nat, k: nat, H: nat, enc: Encoder, rule: Rule)
    requires Admissible(rule) && enc.WellFormed() && enc.Size() <= H && k < H
    ensures Processed(enc, rule.weighting, r.azimuth, Steering(r, rule), Prescaled(rule.prescale, Sample(r.values, channel, j)), offset, offset + k)
         == Contribution(r, channel, j, k, enc, rule)
  {
    var x := Prescaled(rule.prescale, Sample(r.values, channel, j));
    assert |enc.process(r.azimuth, Steering(r, rule), x)| == enc.Size();
  }

  /** Outside the slice `ProcessSample` adds nothing. */
  lemma {:induction false} ProcessedOutside(r: Sampled, channel: nat, j: nat, offset: nat, t: nat, H: nat, enc: Encoder, rule: Rule)
    requires Admissible(rule) && enc.WellFormed() && enc.Size() <= H
    requires t < offset || offset + H <= t
    ensures Processed(enc, rule.weighting, r.azimuth, Steering(r, rule), Prescaled(rule.prescale, Sample(r.values, channel, j)), offset, t) == 0.0
  {
    var x := Prescaled(rule.prescale, Sample(r.values, channel, j));
    assert |enc.process(r.azimuth, Steering(r, rule), x)| == enc.Size();
  }

  /** Once `r` has added every slice, it belongs to the accumulated responses. */
  lemma {:induction false} PartialDone(cur: seq<real>, init: seq<real>, done: seq<Sampled>, r: Sampled, channel: nat, H: nat, enc: Encoder, rule: Rule)
    requires Admissible(rule) && H > 0
    requires Partial(cur, init, done, r, |cur|, channel, H, enc, rule)
    ensures Accumulated(cur, init, done + [r], channel, H, enc, rule)
  {
    assert (done + [r])[..|done + [r]| - 1] == done;
  }

  /**
   * The nested loops of `read`: for every response and every time sample `j`,
   * the prescaled left sample is processed into `left` at `j * H` and the right
   * one into `right`. Both matrices end up with their `Matrix` added.
   */
  method Accumulate(left: array<real>, right: array<real>, rs: seq<Sampled>, size: nat, H: nat, enc: Encoder, rule: Rule)
    requires rs == [] || Admissible(rule)
    requires enc.WellFormed() && 0 < enc.Size() <= H
    requires left != right && left.Length == size * H && right.Length == size * H
    modifies left, right
    ensures forall t :: 0 <= t < size * H ==> left[t] == old(left[t]) + Matrix(rs, 0, size, H, enc, rule)[t]
    ensures forall t :: 0 <= t < size * H ==> right[t] == old(right[t]) + Matrix(rs, 1, size, H, enc, rule)[t]
  {
    ghost var initLeft, initRight := left[..], right[..];
    var i := 0;
    while i < |rs|
      invariant 0 <= i <= |rs|
      invariant Accumulated(left[..], initLeft, rs[..i], 0, H, enc, rule)
      invariant Accumulated(right[..], initRight, rs[..i], 1, H, enc, rule)
    {
      AddResponse(left, right, rs[..i], rs[i], size, H, enc, rule, initLeft, initRight);
      assert rs[..i + 1] == rs[..i] + [rs[i]];
      i := i + 1;
    }
    assert rs[..i] == rs;
    AccumulatedMatrix(left[..], initLeft, rs, 0, size, H, enc, rule);
    AccumulatedMatrix(right[..], initRight, rs, 1, size, H, enc, rule);
  }

  /** The inner loop of `read`: one response adds every time sample of both channels. */
  method AddResponse(left: array<real>, right: array<real>, done: seq<Sampled>, r: Sampled, size: nat, H: nat, enc: Encoder, rule: Rule,
                     ghost initLeft: seq<real>, ghost initRight: seq<real>)
    requires Admissible(rule)
    requires enc.WellFormed() && 0 < enc.Size() <= H
    requires left != right && left.Length == size * H && right.Length == size * H
    requires Accumulated(left[..], initLeft, done, 0, H, enc, rule)
    requires Accumulated(right[..], initRight, done, 1, H, enc, rule)
    modifies left, right
    ensures Accumulated(left[..], initLeft, done + [r], 0, H, enc, rule)
    ensures Accumulated(right[..], initRight, done + [r], 1, H, enc, rule)
  {
    var elevation := if rule.steered then r.elevation else 0.0;
    var j, index := 0, 0;
    while j < size
      invariant 0 <= j <= size && index == j * H
      invariant Partial(left[..], initLeft, done, r, index, 0, H, enc, rule)
      invariant Partial(right[..], initRight, done, r, index, 1, H, enc, rule)
    {
      MulSucc(j, H);
      MulLe(j + 1, size, H);
      ghost var beforeLeft, beforeRight := left[..], right[..];
      var l := Prescaled(rule.prescale, Sample(r.values, 0, j));
      ProcessSample(left, index, enc, rule.weighting, r.azimuth, elevation, l);
      var x := Prescaled(rule.prescale, Sample(r.values, 1, j));
      ProcessSample(right, index, enc, rule.weighting, r.azimuth, elevation, x);
      PartialStep(beforeLeft, left[..], initLeft, done, r, j, index, 0, H, enc, rule);
      PartialStep(beforeRight, right[..], initRight, done, r, j, index, 1, H, enc, rule);
      j, index := j + 1, index + H;
    }
    PartialDone(left[..], initLeft, done, r, 0, H, enc, rule);
    PartialDone(right[..], initRight, done, r, 1, H, enc, rule);
  }

  /** A matrix added to zero-filled storage is what the storage then holds. */
  lemma {:induction false} AddedToZeros(zeros: seq<real>, cur: seq<real>, m: seq<real>)
    requires |cur| == |zeros| == |m|
    requires forall t :: 0 <= t < |zeros| ==> zeros[t] == 0.0
    requires forall t :: 0 <= t < |cur| ==> cur[t] == zeros[t] + m[t]
    ensures cur == m
  {
  }

  /** Having accumulated every response is having added the matrix. */
  lemma {:induction false} AccumulatedMatrix(cur: seq<real>, init: seq<real>, rs: seq<Sampled>, channel: nat, size: nat, H: nat, enc: Encoder, rule: Rule)
    requires rs == [] || Admissible(rule)
    requires H > 0 && |init| == size * H
    requires Accumulated(cur, init, rs, channel, H, enc, rule)
    ensures forall t :: 0 <= t < size * H ==> cur[t] == init[t] + Matrix(rs, channel, size, H, enc, rule)[t]
  {
  }
}
