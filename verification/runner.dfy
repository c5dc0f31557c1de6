/** The process runner's bounded capture (internal/discovery/runner.go,
    limitedBuffer). */
module Runner {
  import opened Order

  type Chunk = seq<bv8>

  // ----- the bounded sink

  datatype Sink = Sink(buf: Chunk, truncated: bool)

  function Written(max: int, s: Sink, p: Chunk): Sink {
    var remaining := max - |s.buf|;
    if remaining > 0 then Sink(s.buf + (if |p| > remaining then p[..remaining] else p), s.truncated || |p| > remaining)
    else s.(truncated := true)
  }

  function WrittenAll(max: int, s: Sink, ps: seq<Chunk>): Sink
    decreases ps
  {
    if ps == [] then s else WrittenAll(max, Written(max, s, ps[0]), ps[1..])
  }

  /** limitedBuffer; every method runs under its mutex. */
  class LimitedBuffer {
    const max: int
    var truncated: bool
    var buf: Chunk

    ghost function Contents(): Sink
      reads this
    {
      Sink(buf, truncated)
    }

    constructor (max: int)
      ensures this.max == max && Contents() == Sink([], false)
    {
      this.max := max;
      truncated, buf := false, [];
    }

    /** Consumes everything it is given, whatever it retains. */
    method Write(p: Chunk) returns (n: nat)
      modifies this
      ensures n == |p| && Contents() == Written(max, old(Contents()), p)
    {
      var remaining := max - |buf|;
      if remaining > 0 {
        var k := |p|;
        if k > remaining {
          k := remaining;
        }
        buf := buf + p[..k];
        if k < |p| {
          truncated := true;
        }
      } else {
        truncated := true;
      }
      n := |p|;
    }
  }

  function Concat(ps: seq<Chunk>): Chunk {
    if ps == [] then [] else ps[0] + Concat(ps[1..])
  }

  /** The first max bytes. */
  function Head(max: int, s: Chunk): Chunk {
    if |s| <= max then s else if max <= 0 then [] else s[..max]
  }

  lemma HeadAppend(max: int, s: Chunk, p: Chunk)
    ensures Written(max, Sink(Head(max, s), false), p).buf == Head(max, s + p)
  {
    if |s| < max {
      assert Head(max, s) == s;
    }
  }

  /** The sink was given an empty write when it was already full. */
  ghost predicate PokedWhenFull(max: int, before: Chunk, ps: seq<Chunk>) {
    exists i :: 0 <= i < |ps| && ps[i] == [] && |before + Concat(ps[..i])| >= max
  }

  lemma PokedTail(max: int, before: Chunk, ps: seq<Chunk>)
    requires ps != []
    ensures PokedWhenFull(max, before, ps)
      <==> (ps[0] == [] && |before| >= max) || PokedWhenFull(max, before + ps[0], ps[1..])
  {
    if PokedWhenFull(max, before, ps) {
      var i :| 0 <= i < |ps| && ps[i] == [] && |before + Concat(ps[..i])| >= max;
      if i > 0 {
        assert ps[..i][1..] == ps[1..][..i - 1];
        assert before + Concat(ps[..i]) == (before + ps[0]) + Concat(ps[1..][..i - 1]);
      }
    }
    if PokedWhenFull(max, before + ps[0], ps[1..]) {
      var j :| 0 <= j < |ps[1..]| && ps[1..][j] == [] && |(before + ps[0]) + Concat(ps[1..][..j])| >= max;
      assert ps[..j + 1][1..] == ps[1..][..j];
      assert before + Concat(ps[..j + 1]) == (before + ps[0]) + Concat(ps[1..][..j]);
    }
    if ps[0] == [] && |before| >= max {
      assert before + Concat(ps[..0]) == before;
    }
  }

  lemma {:induction false} CaptureFrom(max: int, s: Sink, before: Chunk, ps: seq<Chunk>)
    requires s.buf == Head(max, before) && (|before| > Max(0, max) ==> s.truncated)
    ensures WrittenAll(max, s, ps).buf == Head(max, before + Concat(ps))
    ensures WrittenAll(max, s, ps).truncated
      <==> s.truncated || |before + Concat(ps)| > Max(0, max) || PokedWhenFull(max, before, ps)
    decreases ps
  {
    if ps == [] {
      assert before + Concat(ps) == before;
    } else {
      HeadAppend(max, before, ps[0]);
      PokedTail(max, before, ps);
      var next := Written(max, s, ps[0]);
      assert before + Concat(ps) == (before + ps[0]) + Concat(ps[1..]);
      CaptureFrom(max, next, before + ps[0], ps[1..]);
    }
  }

  /** The capture is the first max bytes of all writes. The truncation flag
      says that more was written, or that an empty write found the sink full. */
  lemma CaptureIsPrefix(max: int, ps: seq<Chunk>)
    ensures var s := WrittenAll(max, Sink([], false), ps);
      && s.buf == Head(max, Concat(ps))
      && (s.truncated <==> |Concat(ps)| > Max(0, max) || PokedWhenFull(max, [], ps))
  {
    CaptureFrom(max, Sink([], false), [], ps);
    assert [] + Concat(ps) == Concat(ps);
  }

  /** Writers that never write nothing see truncation exactly when more than
      max bytes came. */
  lemma TruncatedMeansMore(max: int, ps: seq<Chunk>)
    requires forall p :: p in ps ==> p != []
    ensures WrittenAll(max, Sink([], false), ps).truncated <==> |Concat(ps)| > Max(0, max)
  {
    CaptureIsPrefix(max, ps);
    assert forall i :: 0 <= i < |ps| ==> ps[i] in ps;
  }

  /** A write of nothing to a full sink raises the flag although nothing was
      lost. */
  lemma EmptyWriteTruncates()
    ensures WrittenAll(1, Sink([], false), [[7], []]) == Sink([7], true) && Concat([[7], []]) == [7]
  {
    assert [[7], []][1..] == [[]];
    var first := Written(1, Sink([], false), [7]);
    assert first == Sink([7], false);
    assert WrittenAll(1, first, [[]]) == WrittenAll(1, Written(1, first, []), []);
    assert Concat([[]]) == [];
  }
}
