/**
 Pacing: the pacing choice gives a multiplier, the multiplier gives a repeat
 count `max(1, round(multiplier))`, and every topic is repeated that many
 times, in topic order (scolaris_app.py, lines 136-140).
 */
module Pacing {

  import opened TopicBank

  datatype Pace = Slow | Normal | Fast

  /** An exact fraction `num / den`; the multipliers 2, 1 and 0.5 are exact in binary floating point. */
  datatype Ratio = Ratio(num: int, den: int)

  /** The multiplier of each pacing choice. */
  function Multiplier(p: Pace): (q: Ratio)
    ensures q.den > 0
  {
    match p
    case Slow => Ratio(2, 1)
    case Normal => Ratio(1, 1)
    case Fast => Ratio(1, 2)
  }

  /**
   Python's `round` on one argument: the nearest integer, and on a tie
   the even one of the two neighbours.
   */
  function RoundHalfEven(q: Ratio): (r: int)
    requires q.den > 0
    ensures -q.den <= 2 * (r * q.den - q.num) <= q.den
    ensures 2 * (r * q.den - q.num) == q.den || 2 * (r * q.den - q.num) == -q.den ==> r % 2 == 0
  {
    var f, m := q.num / q.den, q.num % q.den;
    assert f * q.den - q.num == -m;
    assert (f + 1) * q.den - q.num == q.den - m;
    if 2 * m < q.den then f
    else if 2 * m > q.den then f + 1
    else if f % 2 == 0 then f
    else f + 1
  }

  function Max(a: int, b: int): int
  {
    if a < b then b else a
  }

  /** How many consecutive teaching days each topic gets. */
  function RepeatCount(p: Pace): (r: nat)
    ensures r >= 1
    ensures r == if p == Slow then 2 else 1
  {
    Max(1, RoundHalfEven(Multiplier(p)))
  }

  /** `[topic] * repeat`. */
  function Repeated(topic: Topic, repeat: nat): (r: seq<Topic>)
    ensures |r| == repeat
    ensures forall k :: 0 <= k < repeat ==> r[k] == topic
  {
    if repeat == 0 then [] else Repeated(topic, repeat - 1) + [topic]
  }

  /** Every topic `repeat` times in a row, in topic order. */
  function Expanded(topics: seq<Topic>, repeat: nat): (r: seq<Topic>)
    ensures |r| == repeat * |topics|
  {
    if topics == [] then []
    else
      var r := Expanded(topics[..|topics| - 1], repeat) + Repeated(topics[|topics| - 1], repeat);
      assert |r| == repeat * (|topics| - 1) + repeat;
      r
  }

  lemma {:induction false} MulAtLeast(r: int, x: int)
    requires r > 0 && x >= 1
    ensures r * x >= r
  {
    if x > 1 {
      MulAtLeast(r, x - 1);
      assert r * x == r * (x - 1) + r;
    }
  }

  /** `k / r < n` for every non-negative `k` below `r * n`. */
  lemma DivBelow(k: int, r: int, n: int)
    requires r > 0 && 0 <= k < r * n
    ensures k / r < n
  {
    var d, m := k / r, k % r;
    assert k == r * d + m && 0 <= m;
    assert r * (d - n) == r * d - r * n;
    if d >= n {
      if d > n {
        MulAtLeast(r, d - n);
      }
      assert false;
    }
  }

  /** The expansion of `topics` is the expansion of all but the last topic, then the last block. */
  lemma ExpandedSplit(topics: seq<Topic>, repeat: nat)
    requires topics != []
    ensures var n := |topics| - 1;
            && Expanded(topics, repeat) == Expanded(topics[..n], repeat) + Repeated(topics[n], repeat)
            && |Expanded(topics[..n], repeat)| == repeat * n
  {
  }

  /** Copy `j` of topic `q` sits at position `repeat * q + j` of the expansion. */
  lemma {:induction false} ExpandedBlock(topics: seq<Topic>, repeat: nat, q: nat, j: nat)
    requires q < |topics| && j < repeat
    ensures repeat * q + j < |Expanded(topics, repeat)|
    ensures Expanded(topics, repeat)[repeat * q + j] == topics[q]
  {
    var n := |topics| - 1;
    ExpandedSplit(topics, repeat);
    if q < n {
      ExpandedBlock(topics[..n], repeat, q, j);
    } else {
      assert repeat * |topics| == repeat * n + repeat;
    }
  }

  /** Position `k` of the expansion holds topic `k / repeat`. */
  lemma ExpandedAt(topics: seq<Topic>, repeat: nat, k: nat)
    requires repeat >= 1 && k < repeat * |topics|
    ensures k / repeat < |topics| && Expanded(topics, repeat)[k] == topics[k / repeat]
  {
    var q, j := k / repeat, k % repeat;
    DivBelow(k, repeat, |topics|);
    assert k == repeat * q + j;
    ExpandedBlock(topics, repeat, q, j);
  }

  /**
   The expansion loop: for each topic, in order, the repeat count is
   computed and that many copies of the topic are appended.
   */
  method ExpandTopics(topics: seq<Topic>, pace: Pace) returns (expanded: seq<Topic>)
    ensures expanded == Expanded(topics, RepeatCount(pace))
    ensures |expanded| == RepeatCount(pace) * |topics|
    ensures forall k :: 0 <= k < |expanded| ==> expanded[k] == topics[k / RepeatCount(pace)]
  {
    expanded := [];
    for i := 0 to |topics|
      invariant expanded == Expanded(topics[..i], RepeatCount(pace))
    {
      var repeat := Max(1, RoundHalfEven(Multiplier(pace)));
      assert topics[..i + 1][..i] == topics[..i];
      expanded := expanded + Repeated(topics[i], repeat);
    }
    assert topics[..|topics|] == topics;
    forall k | 0 <= k < |expanded|
      ensures expanded[k] == topics[k / RepeatCount(pace)]
    {
      ExpandedAt(topics, RepeatCount(pace), k);
    }
  }
}
