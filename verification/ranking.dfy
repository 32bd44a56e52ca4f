/**
  Top-K selection in `handleSend` (ChatBox.tsx): the scored chunks are sorted
  with the comparator `b.score - a.score` and the first three are kept.
  `Array.prototype.sort` is stable (ECMA-262, 2019 edition onward), so the
  order is by descending score and, among equal scores, by original position.
  The sort is modelled by its result, as an ordering of positions.
 */
module Ranking {
  import Upload

  /** A chunk with its similarity to the query; scores are abstract ordered values. */
  datatype ScoredChunk = ScoredChunk(chunk: Upload.Chunk, score: int)

  const TopK: nat := 3

  function Min(a: nat, b: nat): nat {
    if a <= b then a else b
  }

  /** `{ ...chunk, score }` for every chunk, in chunk order. */
  function Score(chunks: seq<Upload.Chunk>, scores: seq<int>): (sc: seq<ScoredChunk>)
    requires |scores| == |chunks|
    ensures |sc| == |chunks|
    ensures forall i :: 0 <= i < |sc| ==> sc[i].chunk == chunks[i] && sc[i].score == scores[i]
  {
    seq(|chunks|, i requires 0 <= i < |chunks| => ScoredChunk(chunks[i], scores[i]))
  }

  /**
    Position `i` comes before position `j` in the stable descending order:
    a higher score first, and on a tie the earlier position first.
   */
  predicate Precedes(s: seq<ScoredChunk>, i: nat, j: nat)
    requires i < |s| && j < |s|
  {
    s[i].score > s[j].score || (s[i].score == s[j].score && i < j)
  }

  predicate InRange(s: seq<ScoredChunk>, o: seq<nat>) {
    forall k :: 0 <= k < |o| ==> o[k] < |s|
  }

  /** Every earlier entry of `o` precedes every later one (which also makes the entries distinct). */
  predicate Ordered(s: seq<ScoredChunk>, o: seq<nat>)
    requires InRange(s, o)
  {
    forall a, b :: 0 <= a < b < |o| ==> Precedes(s, o[a], o[b])
  }

  /** Inserts position `i` into an ordered list of other positions. */
  function Insert(s: seq<ScoredChunk>, i: nat, o: seq<nat>): (r: seq<nat>)
    requires i < |s| && InRange(s, o) && Ordered(s, o) && i !in o
    ensures |r| == |o| + 1
    ensures InRange(s, r) && Ordered(s, r)
    ensures forall x :: x in r <==> x == i || x in o
  {
    if |o| == 0 then [i]
    else if Precedes(s, i, o[0]) then [i] + o
    else
      var rest := Insert(s, i, o[1..]);
      assert Precedes(s, o[0], i);
      assert forall b :: 0 <= b < |rest| ==> Precedes(s, o[0], rest[b]) by {
        forall b | 0 <= b < |rest|
          ensures Precedes(s, o[0], rest[b])
        {
          if rest[b] != i {
            assert rest[b] in rest;
            assert rest[b] in o[1..];
            var c :| 0 <= c < |o[1..]| && o[1..][c] == rest[b];
            assert o[1..][c] == o[c + 1];
          }
        }
      }
      [o[0]] + rest
  }

  /** Positions `k..|s|-1` in stable descending order. */
  function OrderFrom(s: seq<ScoredChunk>, k: nat): (o: seq<nat>)
    requires k <= |s|
    ensures |o| == |s| - k
    ensures InRange(s, o) && Ordered(s, o)
    ensures forall x :: x in o <==> k <= x < |s|
    decreases |s| - k
  {
    if k == |s| then [] else Insert(s, k, OrderFrom(s, k + 1))
  }

  /** The order `sort((a, b) => b.score - a.score)` leaves the positions in: a permutation of all of them. */
  function StableOrder(s: seq<ScoredChunk>): (o: seq<nat>)
    ensures |o| == |s|
    ensures InRange(s, o) && Ordered(s, o)
    ensures forall x :: 0 <= x < |s| <==> x in o
  {
    OrderFrom(s, 0)
  }

  /** The positions `.slice(0, 3)` keeps. */
  function TopPositions(s: seq<ScoredChunk>): (t: seq<nat>)
    ensures |t| == Min(TopK, |s|)
    ensures InRange(s, t) && Ordered(s, t)
    ensures forall k, i :: 0 <= k < |t| && 0 <= i < |s| && i !in t ==> Precedes(s, t[k], i)
  {
    var o := StableOrder(s);
    var t := o[..Min(TopK, |s|)];
    assert forall i :: 0 <= i < |s| && i !in t ==> i in o[Min(TopK, |s|)..] by {
      forall i | 0 <= i < |s| && i !in t
        ensures i in o[Min(TopK, |s|)..]
      {
        assert i in o;
        var j :| 0 <= j < |o| && o[j] == i;
        assert o[j] == o[Min(TopK, |s|)..][j - Min(TopK, |s|)];
      }
    }
    t
  }

  /**
    `scoredChunks.sort(...).slice(0, 3)`: at most three chunks, each one of the
    scored chunks, in non-increasing score order; every chunk left out scores at
    most as high as the last one kept, and ties keep their original order.
   */
  function RankTop3(s: seq<ScoredChunk>): (r: seq<ScoredChunk>)
    ensures |r| == Min(TopK, |s|)
    ensures forall k :: 0 <= k < |r| ==> r[k] in s
    ensures forall a, b :: 0 <= a < b < |r| ==> r[a].score >= r[b].score
    ensures forall i :: 0 <= i < |s| && i !in TopPositions(s) ==> s[i].score <= r[|r| - 1].score
    ensures forall k :: 0 <= k < |r| ==> r[k] == s[TopPositions(s)[k]]
  {
    var t := TopPositions(s);
    seq(|t|, k requires 0 <= k < |t| => s[t[k]])
  }

  /** Among equal scores the kept chunks keep their original relative order. */
  lemma RankTop3IsStable(s: seq<ScoredChunk>, a: nat, b: nat)
    requires a < b < |RankTop3(s)|
    requires RankTop3(s)[a].score == RankTop3(s)[b].score
    ensures TopPositions(s)[a] < TopPositions(s)[b]
  {
  }

  /** The head of an ordered list precedes each other entry. */
  lemma FirstPrecedesRest(s: seq<ScoredChunk>, o: seq<nat>, x: nat)
    requires InRange(s, o) && Ordered(s, o)
    requires x in o
    ensures x == o[0] || Precedes(s, o[0], x)
  {
  }

  /** Two ordered lists of the same positions are equal. */
  lemma {:induction false} OrderedUnique(s: seq<ScoredChunk>, o1: seq<nat>, o2: seq<nat>)
    requires InRange(s, o1) && Ordered(s, o1)
    requires InRange(s, o2) && Ordered(s, o2)
    requires |o1| == |o2|
    requires forall x :: x in o1 <==> x in o2
    ensures o1 == o2
    decreases |o1|
  {
    if |o1| > 0 {
      assert o1[0] in o2 && o2[0] in o1;
      FirstPrecedesRest(s, o2, o1[0]);
      FirstPrecedesRest(s, o1, o2[0]);
      assert o1[0] == o2[0];
      forall x
        ensures x in o1[1..] <==> x in o2[1..]
      {
        if x in o1[1..] {
          var p :| 1 <= p < |o1| && o1[p] == x;
          assert Precedes(s, o1[0], o1[p]);
          assert x in o2;
          var q :| 0 <= q < |o2| && o2[q] == x;
          assert q != 0;
          assert o2[q] == o2[1..][q - 1];
        }
        if x in o2[1..] {
          var p :| 1 <= p < |o2| && o2[p] == x;
          assert Precedes(s, o2[0], o2[p]);
          assert x in o1;
          var q :| 0 <= q < |o1| && o1[q] == x;
          assert q != 0;
          assert o1[q] == o1[1..][q - 1];
        }
      }
      OrderedUnique(s, o1[1..], o2[1..]);
      assert o1 == [o1[0]] + o1[1..];
      assert o2 == [o2[0]] + o2[1..];
    }
  }

  /**
    Any stable sort by descending score yields `StableOrder`: a permutation of
    the positions in which every earlier entry precedes every later one is it.
   */
  lemma StableSortIsUnique(s: seq<ScoredChunk>, o: seq<nat>)
    requires |o| == |s|
    requires InRange(s, o) && Ordered(s, o)
    requires forall x :: 0 <= x < |s| ==> x in o
    ensures o == StableOrder(s)
  {
    OrderedUnique(s, o, StableOrder(s));
  }

  /**
    Two chunks: the higher score comes first, and on a tie the first chunk stays
    first; so the ranked order differs from page order exactly when the second
    chunk scores strictly higher.
   */
  lemma TwoChunkRanking(a: ScoredChunk, b: ScoredChunk)
    ensures RankTop3([a, b]) == if a.score >= b.score then [a, b] else [b, a]
  {
    var s := [a, b];
    var o := if a.score >= b.score then [0, 1] else [1, 0];
    assert o[0] in o && o[1] in o;
    StableSortIsUnique(s, o);
  }
}
