/**
 * Sample access on the decoded stereo buffer of a response: frames of two
 * interleaved values, left first.
 */
module Samples {

  /** `getNumberOfSamplesPerChannel`: the number of whole frames, `|values| / 2`. */
  function SamplesPerChannel(values: seq<real>): (n: nat)
    ensures 2 * n <= |values| < 2 * n + 2
  {
    |values| / 2
  }

  /**
   * `getSample(channel, index)`: the value of that channel in that frame, and 0
   * for a channel other than 0 or 1 or an index past the last whole frame.
   */
  function Sample(values: seq<real>, channel: nat, index: nat): real {
    if channel < 2 && index < SamplesPerChannel(values) then values[index * 2 + channel] else 0.0
  }

  /** The stereo buffer a decoder would produce from two channels of equal length. */
  function Interleave(left: seq<real>, right: seq<real>): (values: seq<real>)
    requires |left| == |right|
    ensures |values| == 2 * |left|
  {
    if left == [] then [] else Interleave(left[..|left| - 1], right[..|right| - 1]) + [left[|left| - 1], right[|right| - 1]]
  }

  /** One channel of a buffer, as `getSample` reads it frame by frame. */
  function Channel(values: seq<real>, channel: nat): (r: seq<real>)
    ensures |r| == SamplesPerChannel(values)
  {
    seq(SamplesPerChannel(values), i requires 0 <= i < SamplesPerChannel(values) => Sample(values, channel, i))
  }

  lemma {:induction false} InterleaveAt(left: seq<real>, right: seq<real>, i: nat)
    requires |left| == |right| && i < |left|
    ensures Interleave(left, right)[2 * i] == left[i]
    ensures Interleave(left, right)[2 * i + 1] == right[i]
  {
    var n := |left| - 1;
    if i < n {
      InterleaveAt(left[..n], right[..n], i);
    }
  }

  /**
   * `getSample` recovers both channels of an interleaved buffer, and gives 0 past
   * its end and on any channel but the two.
   */
  lemma {:induction false} SampleOfInterleave(left: seq<real>, right: seq<real>, channel: nat, index: nat)
    requires |left| == |right|
    ensures SamplesPerChannel(Interleave(left, right)) == |left|
    ensures Sample(Interleave(left, right), channel, index) ==
      if channel == 0 && index < |left| then left[index]
      else if channel == 1 && index < |left| then right[index]
      else 0.0
  {
    if channel < 2 && index < |left| {
      InterleaveAt(left, right, index);
    }
  }

  /** Splitting a buffer of whole frames into its channels and interleaving them again gives it back. */
  lemma {:induction false} ChannelsRoundTrip(values: seq<real>)
    requires |values| % 2 == 0
    ensures Interleave(Channel(values, 0), Channel(values, 1)) == values
  {
    var l, r := Channel(values, 0), Channel(values, 1);
    var w := Interleave(l, r);
    forall t | 0 <= t < |values| ensures w[t] == values[t] {
      InterleaveAt(l, r, t / 2);
    }
  }
}
