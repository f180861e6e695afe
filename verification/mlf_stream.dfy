/**
 * The sample stream that follows the header: one record per call to the
 * sample encoder, each as wide as the data type of the channel under the
 * cursor, with the cursor moving cyclically through the channels.
 */
module MlfStream {
  import opened Wrappers
  import opened MlfTypes
  import opened MlfFormat

  /** The channel after `c` among `n` channels: the increment, reset to 0 at `n`. */
  function NextChannel(c: nat, n: nat): (r: nat)
    requires c < n
    ensures r < n
    ensures r == (c + 1) % n
  {
    if c + 1 >= n then ModUnique(c + 1, n, 1, 0); 0
    else ModUnique(c + 1, n, 0, c + 1); c + 1
  }

  /** The cursor after `k` sample calls, starting from channel `c`. */
  function Advance(c: nat, n: nat, k: nat): (r: nat)
    requires c < n
    ensures r < n
  {
    if k == 0 then c else NextChannel(Advance(c, n, k - 1), n)
  }

  /** A positive multiple of `n` is at least `n`. */
  lemma {:induction false} MulAtLeast(n: nat, d: nat)
    requires 1 <= d
    ensures n * d >= n
  {
    if d > 1 {
      MulAtLeast(n, d - 1);
      assert n * d == n * (d - 1) + n;
    }
  }

  /** The remainder is the `r` of any division `x == n * q + r` with `r < n`. */
  lemma ModUnique(x: nat, n: nat, q: nat, r: nat)
    requires 0 < n && r < n && x == n * q + r
    ensures x % n == r
  {
    var q', r' := x / n, x % n;
    assert x == n * q' + r';
    if q' > q {
      assert n * q' == n * q + n * (q' - q);
      MulAtLeast(n, q' - q);
    } else if q > q' {
      assert n * q == n * q' + n * (q - q');
      MulAtLeast(n, q - q');
    }
  }

  /** Incrementing the remainder and reducing again is reducing the successor. */
  lemma ModSucc(x: nat, n: nat)
    requires 0 < n
    ensures (x % n + 1) % n == (x + 1) % n
  {
    var q, m := x / n, x % n;
    assert x == n * q + m;
    if m + 1 < n {
      ModUnique(x + 1, n, q, m + 1);
      ModUnique(m + 1, n, 0, m + 1);
    } else {
      assert x + 1 == n * (q + 1) + 0;
      ModUnique(x + 1, n, q + 1, 0);
    }
  }

  /** After `k` calls the cursor is `k` channels further on, modulo `n`. */
  lemma {:induction false} AdvanceIsModular(c: nat, n: nat, k: nat)
    requires c < n
    ensures Advance(c, n, k) == (c + k) % n
  {
    if k == 0 {
      ModUnique(c, n, 0, c);
    } else {
      AdvanceIsModular(c, n, k - 1);
      ModSucc(c + k - 1, n);
    }
  }

  /** A full cycle of `n` calls brings the cursor back to where it started. */
  lemma FullCycle(c: nat, n: nat)
    requires c < n
    ensures Advance(c, n, n) == c
  {
    AdvanceIsModular(c, n, n);
    ModUnique(c + n, n, 1, c);
  }

  /** Starting from channel 0, the cursor is back at 0 exactly every `n` calls. */
  lemma BackAtStart(n: nat, k: nat)
    requires 0 < n
    ensures Advance(0, n, k) == 0 <==> k % n == 0
  {
    AdvanceIsModular(0, n, k);
  }

  /** One more call first is the same as one more call last. */
  lemma {:induction false} AdvanceShift(c: nat, n: nat, k: nat)
    requires c < n
    ensures Advance(NextChannel(c, n), n, k) == Advance(c, n, k + 1)
  {
    if k > 0 {
      AdvanceShift(c, n, k - 1);
    }
  }

  /** Each sample in turn is at least as long as its channel's width. */
  predicate SamplesFit(types: seq<ChannelDataType>, c: nat, samples: seq<seq<byte>>)
    requires c < |types|
    decreases |samples|
  {
    samples == [] ||
    (|samples[0]| >= Width(types[c]) && SamplesFit(types, NextChannel(c, |types|), samples[1..]))
  }

  /**
   * The bytes the sample encoder hands back over a sequence of calls,
   * starting with the cursor on channel `c`, one after the other.
   */
  function Stream(types: seq<ChannelDataType>, c: nat, samples: seq<seq<byte>>): seq<byte>
    requires c < |types| && SamplesFit(types, c, samples)
    decreases |samples|
  {
    if samples == [] then []
    else samples[0][..Width(types[c])] + Stream(types, NextChannel(c, |types|), samples[1..])
  }

  /** The stream of the samples from the i-th on: sample i's record, then the stream of the rest. */
  lemma {:induction false} StreamStep(types: seq<ChannelDataType>, c: nat, samples: seq<seq<byte>>, i: nat)
    requires c < |types| && i < |samples| && SamplesFit(types, c, samples[i..])
    ensures |samples[i]| >= Width(types[c])
    ensures SamplesFit(types, NextChannel(c, |types|), samples[i + 1..])
    ensures Stream(types, c, samples[i..])
            == samples[i][..Width(types[c])] + Stream(types, NextChannel(c, |types|), samples[i + 1..])
  {
    assert samples[i..][0] == samples[i] && samples[i..][1..] == samples[i + 1..];
  }

  /**
   * `k` records read from the front of `b` by replaying the channel types
   * from channel `c`, and the number of bytes they take.
   */
  function Unstream(types: seq<ChannelDataType>, c: nat, k: nat, b: seq<byte>): Option<(seq<seq<byte>>, nat)>
    requires c < |types|
    decreases k
  {
    if k == 0 then Some(([], 0))
    else
      var w := Width(types[c]);
      if |b| < w then None
      else match Unstream(types, NextChannel(c, |types|), k - 1, b[w..])
        case None => None
        case Some((records, used)) => Some(([b[..w]] + records, w + used))
  }

  /**
   * Reading a stream back with the header's channel types recovers, for
   * every call i, exactly the first Width bytes of the i-th sample, where
   * the width is that of the channel the cursor was on at that call.
   */
  lemma {:induction false} StreamRoundTrip(types: seq<ChannelDataType>, c: nat,
                                           samples: seq<seq<byte>>, rest: seq<byte>)
    requires c < |types| && SamplesFit(types, c, samples)
    ensures var r := Unstream(types, c, |samples|, Stream(types, c, samples) + rest);
            r.Some? && |r.value.0| == |samples| && r.value.1 == |Stream(types, c, samples)|
            && forall i :: 0 <= i < |samples| ==>
                 var w := Width(types[Advance(c, |types|, i)]);
                 w <= |samples[i]| && r.value.0[i] == samples[i][..w]
    decreases |samples|
  {
    if samples != [] {
      var c' := NextChannel(c, |types|);
      var w := Width(types[c]);
      var tail := Stream(types, c', samples[1..]);
      assert Stream(types, c, samples) == samples[0][..w] + tail;
      assert Stream(types, c, samples) + rest == samples[0][..w] + (tail + rest);
      StreamRoundTrip(types, c', samples[1..], rest);
      var r' := Unstream(types, c', |samples| - 1, tail + rest).value;
      UnstreamCons(types, c, |samples|, samples[0][..w], tail + rest, r'.0, r'.1);
      RecordsCons(types, c, samples, r'.0);
    }
  }

  /** Reading one record of the channel's width, then the records that follow it. */
  lemma {:induction false} UnstreamCons(types: seq<ChannelDataType>, c: nat, k: nat, record: seq<byte>,
                                        tail: seq<byte>, records: seq<seq<byte>>, used: nat)
    requires c < |types| && k > 0 && |record| == Width(types[c])
    requires Unstream(types, NextChannel(c, |types|), k - 1, tail).Some?
    requires Unstream(types, NextChannel(c, |types|), k - 1, tail).value.0 == records
    requires Unstream(types, NextChannel(c, |types|), k - 1, tail).value.1 == used
    ensures var r := Unstream(types, c, k, record + tail);
            r.Some? && r.value.0 == [record] + records && r.value.1 == |record| + used
  {
    assert (record + tail)[|record|..] == tail;
    assert (record + tail)[..|record|] == record;
  }

  /** The records of the later calls, behind the record of the first call, are the records of all of them. */
  lemma {:induction false} RecordsCons(types: seq<ChannelDataType>, c: nat,
                                       samples: seq<seq<byte>>, records: seq<seq<byte>>)
    requires c < |types| && samples != [] && |records| == |samples| - 1
    requires Width(types[c]) <= |samples[0]|
    requires forall i :: 0 <= i < |samples| - 1 ==>
               var w := Width(types[Advance(NextChannel(c, |types|), |types|, i)]);
               w <= |samples[1..][i]| && records[i] == samples[1..][i][..w]
    ensures forall i :: 0 <= i < |samples| ==>
              var w := Width(types[Advance(c, |types|, i)]);
              w <= |samples[i]| && ([samples[0][..Width(types[c])]] + records)[i] == samples[i][..w]
  {
    forall i | 0 < i < |samples|
      ensures var w := Width(types[Advance(c, |types|, i)]);
              w <= |samples[i]| && ([samples[0][..Width(types[c])]] + records)[i] == samples[i][..w]
    {
      AdvanceShift(c, |types|, i - 1);
      assert samples[1..][i - 1] == samples[i];
    }
  }

  /** The total width of a run of channels. */
  function SumWidths(types: seq<ChannelDataType>): nat
  {
    if types == [] then 0 else Width(types[0]) + SumWidths(types[1..])
  }

  /**
   * The calls for channels c .. c + |samples| - 1, none wrapping around,
   * produce exactly as many bytes as those channels' widths add up to.
   */
  lemma {:induction false} StreamLength(types: seq<ChannelDataType>, c: nat, samples: seq<seq<byte>>)
    requires c < |types| && SamplesFit(types, c, samples)
    requires c + |samples| <= |types|
    ensures |Stream(types, c, samples)| == SumWidths(types[c..c + |samples|])
    decreases |samples|
  {
    if samples != [] {
      var c' := NextChannel(c, |types|);
      if |samples| > 1 {
        StreamLength(types, c', samples[1..]);
      }
      assert types[c..c + |samples|][1..] == types[c + 1..c + |samples|];
    }
  }

  /**
   * One full cycle from channel 0, one sample per channel, produces the
   * sum of all the channels' widths, whatever the header's size.
   */
  lemma CycleLength(types: seq<ChannelDataType>, samples: seq<seq<byte>>)
    requires 0 < |types| && |samples| == |types| && SamplesFit(types, 0, samples)
    ensures |Stream(types, 0, samples)| == SumWidths(types)
  {
    StreamLength(types, 0, samples);
    assert types[0..|samples|] == types;
  }
}
