/** Packets of several senders at one sink, in any order: the first sender that is accepted stays, all others
    leave no trace. */
module SinkRun {
  import opened CInt
  import opened Convert
  import opened Rings
  import opened RtpReceive

  /** A packet and the global sample count at its arrival. */
  datatype Arrival = Arrival(p: RxPacket, count: U64)

  /** Every packet is well formed and fits the ring. */
  ghost predicate Fits(sink: SinkStream, arrivals: seq<Arrival>, len: nat)
  {
    && len > 0 && (forall c :: 0 <= c < |sink.rings| ==> len <= sink.rings[c].Length)
    && forall i :: 0 <= i < |arrivals| ==> sink.WellFormed(arrivals[i].p) && sink.FrameCount(arrivals[i].p) <= len
  }

  /** What the sink remembers and one word of a ring, after the packets; other is the mark of the attached leg. */
  ghost function After(sink: SinkStream, r: Received, other: Mark, w: Word, arrivals: seq<Arrival>, j: nat, ch: nat, len: nat):
    (Received, Word)
    requires Fits(sink, arrivals, len) && ch < |sink.rings|
    decreases |arrivals|
  {
    if arrivals == [] then (r, w)
    else
      var n := |arrivals| - 1;
      var before := After(sink, r, other, w, arrivals[..n], j, ch, len);
      var a := arrivals[n];
      var judged := Judge(sink.format, before.0, other, a.p, sink.FrameCount(a.p), a.count);
      (judged.0, sink.WordAfter(judged.1, before.1, j, len, a.p, ch))
  }

  /** What the sink remembers is the same for every word. */
  ghost function Remembers(sink: SinkStream, r: Received, other: Mark, arrivals: seq<Arrival>, len: nat): Received
    requires Fits(sink, arrivals, len)
    decreases |arrivals|
  {
    if arrivals == [] then r
    else
      var n := |arrivals| - 1;
      var a := arrivals[n];
      Judge(sink.format, Remembers(sink, r, other, arrivals[..n], len), other, a.p, sink.FrameCount(a.p), a.count).0
  }

  lemma {:induction false} RemembersIs(sink: SinkStream, r: Received, other: Mark, w: Word, arrivals: seq<Arrival>, j: nat,
                                       ch: nat, len: nat)
    requires Fits(sink, arrivals, len) && ch < |sink.rings|
    ensures After(sink, r, other, w, arrivals, j, ch, len).0 == Remembers(sink, r, other, arrivals, len)
    decreases |arrivals|
  {
    if arrivals != [] {
      RemembersIs(sink, r, other, w, arrivals[..|arrivals| - 1], j, ch, len);
    }
  }

  /** The packets of one sender. */
  function Of(arrivals: seq<Arrival>, v: U32): (own: seq<Arrival>)
    ensures forall a :: a in own ==> a in arrivals
    decreases |arrivals|
  {
    if arrivals == [] then []
    else
      var n := |arrivals| - 1;
      Of(arrivals[..n], v) + if arrivals[n].p.ssrc == v then [arrivals[n]] else []
  }

  lemma OwnFit(sink: SinkStream, arrivals: seq<Arrival>, len: nat, v: U32)
    requires Fits(sink, arrivals, len)
    ensures Fits(sink, Of(arrivals, v), len)
  {
    forall i | 0 <= i < |Of(arrivals, v)|
      ensures sink.WellFormed(Of(arrivals, v)[i].p) && sink.FrameCount(Of(arrivals, v)[i].p) <= len
    {
      assert Of(arrivals, v)[i] in arrivals;
    }
  }

  /** A packet of another sender leaves everything as it is. */
  lemma ForeignStep(sink: SinkStream, r: Received, other: Mark, w: Word, a: Arrival, j: nat, ch: nat, len: nat, v: U32)
    requires len > 0 && ch < |sink.rings| && sink.WellFormed(a.p) && r.ssrc == Known(v) && a.p.ssrc != v
    ensures var judged := Judge(sink.format, r, other, a.p, sink.FrameCount(a.p), a.count);
            judged.0 == r && sink.WordAfter(judged.1, w, j, len, a.p, ch) == w
  {}

  lemma KnownStays(sink: SinkStream, r: Received, other: Mark, a: Arrival, v: U32)
    requires sink.WellFormed(a.p) && r.ssrc == Known(v)
    ensures Judge(sink.format, r, other, a.p, sink.FrameCount(a.p), a.count).0.ssrc == Known(v)
  {}

  /** Once a sender is known it stays, and the run is that of its own packets alone. */
  lemma {:induction false} OnlyTheKnownSender(sink: SinkStream, r: Received, other: Mark, w: Word, arrivals: seq<Arrival>,
                                              j: nat, ch: nat, len: nat, v: U32)
    requires Fits(sink, arrivals, len) && ch < |sink.rings| && r.ssrc == Known(v)
    ensures After(sink, r, other, w, arrivals, j, ch, len).0.ssrc == Known(v)
    ensures Fits(sink, Of(arrivals, v), len)
    ensures After(sink, r, other, w, arrivals, j, ch, len) == After(sink, r, other, w, Of(arrivals, v), j, ch, len)
    decreases |arrivals|
  {
    OwnFit(sink, arrivals, len, v);
    if arrivals != [] {
      var n := |arrivals| - 1;
      OnlyTheKnownSender(sink, r, other, w, arrivals[..n], j, ch, len, v);
      var before := After(sink, r, other, w, arrivals[..n], j, ch, len);
      KnownStays(sink, before.0, other, arrivals[n], v);
      if arrivals[n].p.ssrc != v {
        ForeignStep(sink, before.0, other, before.1, arrivals[n], j, ch, len, v);
        assert Of(arrivals, v) == Of(arrivals[..n], v);
      } else {
        assert Of(arrivals, v)[..|Of(arrivals, v)| - 1] == Of(arrivals[..n], v);
      }
    }
  }

  /** The run on the object. When the sender is known before, the outcome is that of its own packets alone. */
  method ReceiveAll(sink: SinkStream, arrivals: seq<Arrival>, len: nat)
    requires Fits(sink, arrivals, len) && sink.attached != sink && |sink.rings| > 0
    modifies sink`received, sink.rings
    ensures Ran(sink, arrivals, |arrivals|, len, old(sink.received), old(sink.OtherLeg()), old(sink.Words()))
    ensures old(sink.received).ssrc.Known? ==>
              var own := Of(arrivals, old(sink.received).ssrc.value);
              && sink.received.ssrc == old(sink.received).ssrc && Fits(sink, own, len)
              && Ran(sink, own, |own|, len, old(sink.received), old(sink.OtherLeg()), old(sink.Words()))
  {
    ghost var r, other, was := sink.received, sink.OtherLeg(), sink.Words();
    var i := 0;
    while i < |arrivals|
      invariant 0 <= i <= |arrivals| && sink.OtherLeg() == other
      invariant Ran(sink, arrivals, i, len, r, other, was)
    {
      ReceiveNext(sink, arrivals, i, len, r, other, was);
      i := i + 1;
    }
    if r.ssrc.Known? {
      OwnRun(sink, arrivals, len, r, other, was, r.ssrc.value);
    }
  }

  lemma OwnRun(sink: SinkStream, arrivals: seq<Arrival>, len: nat, r: Received, other: Mark, was: seq<Ring>, v: U32)
    requires Fits(sink, arrivals, len) && |was| == |sink.rings| && r.ssrc == Known(v) && |sink.rings| > 0
    requires Ran(sink, arrivals, |arrivals|, len, r, other, was)
    ensures sink.received.ssrc == Known(v) && Fits(sink, Of(arrivals, v), len)
    ensures Ran(sink, Of(arrivals, v), |Of(arrivals, v)|, len, r, other, was)
  {
    var own := Of(arrivals, v);
    assert arrivals[..|arrivals|] == arrivals && own[..|own|] == own;
    var w := Word(0, 0, 0, 0);
    OnlyTheKnownSender(sink, r, other, w, arrivals, 0, 0, len, v);
    RemembersIs(sink, r, other, w, arrivals, 0, 0, len);
    RemembersIs(sink, r, other, w, own, 0, 0, len);
    forall c, j | 0 <= c < |was| && LastUse(sink.rings, c) && 0 <= j < sink.rings[c].Length && j < |was[c]|
      ensures sink.rings[c][j] == After(sink, r, other, was[c][j], own, j, c, len).1
    {
      OnlyTheKnownSender(sink, r, other, was[c][j], arrivals, j, c, len, v);
    }
  }

  /** The sink after the first i packets. */
  ghost predicate Ran(sink: SinkStream, arrivals: seq<Arrival>, i: nat, len: nat, r: Received, other: Mark, was: seq<Ring>)
    reads sink, sink.rings
    requires Fits(sink, arrivals, len) && i <= |arrivals| && |was| == |sink.rings|
  {
    && sink.received == Remembers(sink, r, other, arrivals[..i], len)
    && forall c, j :: 0 <= c < |was| && LastUse(sink.rings, c) && 0 <= j < sink.rings[c].Length && j < |was[c]| ==>
         sink.rings[c][j] == After(sink, r, other, was[c][j], arrivals[..i], j, c, len).1
  }

  method ReceiveNext(sink: SinkStream, arrivals: seq<Arrival>, i: nat, len: nat, ghost r: Received, ghost other: Mark,
                     ghost was: seq<Ring>)
    requires Fits(sink, arrivals, len) && sink.attached != sink && i < |arrivals| && |was| == |sink.rings|
    requires sink.OtherLeg() == other && Ran(sink, arrivals, i, len, r, other, was)
    modifies sink`received, sink.rings
    ensures Ran(sink, arrivals, i + 1, len, r, other, was) && sink.OtherLeg() == other
  {
    var a := arrivals[i];
    var used := sink.ProcessPacket(a.p, a.count, len);
    assert arrivals[..i + 1][..i] == arrivals[..i];
    forall c, j | 0 <= c < |was| && LastUse(sink.rings, c) && 0 <= j < sink.rings[c].Length && j < |was[c]|
      ensures sink.rings[c][j] == After(sink, r, other, was[c][j], arrivals[..i + 1], j, c, len).1
    {
      RemembersIs(sink, r, other, was[c][j], arrivals[..i], j, c, len);
    }
  }
}
