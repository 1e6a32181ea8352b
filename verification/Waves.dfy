/** The order in which the merger drains its queue (internal/merge/merge.go). Every continuation belongs
    to a wave: those handed over by phase 1 are wave 0, the ones queued while draining wave g are wave
    g + 1. The queue is always sorted by wave and, within a wave, by depth, whatever order the shard
    groups are visited in. */
module WaveSpec {
  import opened GraphModel
  import opened WalkSpec

  /** (g, d) is not after (h, k) in the order of the queue. */
  predicate NotAfter(g: nat, d: nat, h: nat, k: nat) {
    g < h || (g == h && d <= k)
  }

  /** Wave g offers to reach v at depth d: a continuation handed over does, or a live edge out of
      something drained in the wave before. */
  ghost predicate Offers(es: set<Edge>, maxDepth: int, conts: seq<Continuation>, drained: seq<Continuation>,
                         gens: seq<nat>,
                         g: nat, v: string, d: nat)
    requires |gens| == |drained|
  {
    if g == 0 then exists c :: c in conts && c.vertex == v && c.depth == d
    else exists j, e :: 0 <= j < |drained| && gens[j] == g - 1 && drained[j].depth < maxDepth
                        && d == drained[j].depth + 1
                        && e in es && e.from == drained[j].vertex && e.to == v
  }

  ghost predicate DrainedBy(drained: seq<Continuation>, gens: seq<nat>, g: nat, v: string, d: nat)
    requires |gens| == |drained|
  {
    exists i :: 0 <= i < |drained| && drained[i].vertex == v && NotAfter(gens[i], drained[i].depth, g, d)
  }

  ghost predicate QueuedAs(queue: seq<Continuation>, waves: seq<nat>, g: nat, v: string, d: nat)
    requires |waves| == |queue|
  {
    exists j :: 0 <= j < |queue| && queue[j].vertex == v && waves[j] == g && queue[j].depth == d
  }

  /** An offer is settled when its target is marked no later than it, or it still waits. */
  ghost predicate Settled(marked: set<string>, drained: seq<Continuation>, gens: seq<nat>, queue: seq<Continuation>,
                          waves: seq<nat>,
                          g: nat, v: string, d: nat)
    requires |gens| == |drained| && |waves| == |queue|
  {
    v in marked || DrainedBy(drained, gens, g, v, d) || QueuedAs(queue, waves, g, v, d)
  }

  /** The queue is sorted, nothing in it comes before what was drained, and it spans at most one wave. */
  ghost predicate InOrder(drained: seq<Continuation>, gens: seq<nat>, queue: seq<Continuation>, waves: seq<nat>)
    requires |gens| == |drained| && |waves| == |queue|
  {
    && (forall i, j :: 0 <= i <= j < |queue| ==> NotAfter(waves[i], queue[i].depth, waves[j], queue[j].depth))
    && (forall i, j :: 0 <= i < |drained| && 0 <= j < |queue| ==>
                         NotAfter(gens[i], drained[i].depth, waves[j], queue[j].depth))
    && (forall j :: 0 <= j < |queue| ==> NotAfter(waves[j], queue[j].depth, waves[0] + 1, queue[0].depth + 1))
  }

  ghost predicate Offered(es: set<Edge>, maxDepth: int, conts: seq<Continuation>, drained: seq<Continuation>,
                          gens: seq<nat>,
                          cs: seq<Continuation>, gs: seq<nat>)
    requires |gens| == |drained| && |gs| == |cs|
  {
    forall i :: 0 <= i < |cs| ==> Offers(es, maxDepth, conts, drained, gens, gs[i], cs[i].vertex, cs[i].depth)
  }

  ghost predicate AllSettled(es: set<Edge>, maxDepth: int, conts: seq<Continuation>, marked: set<string>,
                             drained: seq<Continuation>, gens: seq<nat>, queue: seq<Continuation>, waves: seq<nat>)
    requires |gens| == |drained| && |waves| == |queue|
  {
    forall g: nat, v, d: nat :: Offers(es, maxDepth, conts, drained, gens, g, v, d) ==>
                                  Settled(marked, drained, gens, queue, waves, g, v, d)
  }

  ghost predicate Waved(es: set<Edge>, maxDepth: int, conts: seq<Continuation>, marked: set<string>,
                        drained: seq<Continuation>, gens: seq<nat>, queue: seq<Continuation>, waves: seq<nat>)
  {
    && |gens| == |drained| && |waves| == |queue|
    && InOrder(drained, gens, queue, waves)
    && Offered(es, maxDepth, conts, drained, gens, drained, gens)
    && Offered(es, maxDepth, conts, drained, gens, queue, waves)
    && AllSettled(es, maxDepth, conts, marked, drained, gens, queue, waves)
  }

  lemma WavesStart(es: set<Edge>, maxDepth: int, conts: seq<Continuation>, marked: set<string>)
    requires Rising(conts)
    ensures Waved(es, maxDepth, conts, marked, [], [], conts, seq(|conts|, _ => 0))
  {
    var zeros: seq<nat> := seq(|conts|, _ => 0);
    forall i | 0 <= i < |conts| ensures Offers(es, maxDepth, conts, [], [], zeros[i], conts[i].vertex, conts[i].depth) {
      assert conts[i] in conts;
    }
    forall g: nat, v, d: nat | Offers(es, maxDepth, conts, [], [], g, v, d)
      ensures Settled(marked, [], [], conts, zeros, g, v, d)
    {
      var c :| c in conts && c.vertex == v && c.depth == d;
      var j :| 0 <= j < |conts| && conts[j] == c;
      assert QueuedAs(conts, zeros, g, v, d);
    }
  }

  lemma SettledAfterSkip(marked: set<string>, drained: seq<Continuation>, gens: seq<nat>, queue: seq<Continuation>,
                         waves: seq<nat>,
                         g: nat, v: string, d: nat)
    requires |gens| == |drained| && |waves| == |queue| > 0 && InOrder(drained, gens, queue, waves)
    requires queue[0].vertex in marked + ContinuationVertices(drained)
    requires Settled(marked, drained, gens, queue, waves, g, v, d)
    ensures Settled(marked, drained, gens, queue[1..], waves[1..], g, v, d)
  {
    if QueuedAs(queue, waves, g, v, d) {
      var j :| 0 <= j < |queue| && queue[j].vertex == v && waves[j] == g && queue[j].depth == d;
      if j == 0 && v !in marked {
        var c :| c in drained && c.vertex == v;
        var i :| 0 <= i < |drained| && drained[i] == c;
        assert NotAfter(gens[i], drained[i].depth, waves[0], queue[0].depth);
        assert DrainedBy(drained, gens, g, v, d);
      } else if j > 0 {
        assert queue[1..][j - 1] == queue[j] && waves[1..][j - 1] == waves[j];
        assert QueuedAs(queue[1..], waves[1..], g, v, d);
      }
    }
  }

  /** Dropping a head that is already marked. */
  lemma WavesSkip(es: set<Edge>, maxDepth: int, conts: seq<Continuation>, marked: set<string>,
                  drained: seq<Continuation>, gens: seq<nat>, queue: seq<Continuation>, waves: seq<nat>)
    requires Waved(es, maxDepth, conts, marked, drained, gens, queue, waves) && |queue| > 0
    requires queue[0].vertex in marked + ContinuationVertices(drained)
    ensures Waved(es, maxDepth, conts, marked, drained, gens, queue[1..], waves[1..])
  {
    forall g: nat, v, d: nat | Offers(es, maxDepth, conts, drained, gens, g, v, d)
      ensures Settled(marked, drained, gens, queue[1..], waves[1..], g, v, d)
    {
      SettledAfterSkip(marked, drained, gens, queue, waves, g, v, d);
    }
  }

  function NextWave(waves: seq<nat>, n: nat): seq<nat>
    requires |waves| > 0
  {
    waves[1..] + seq(n, _ => waves[0] + 1)
  }

  lemma OffersGrow(es: set<Edge>, maxDepth: int, conts: seq<Continuation>, drained: seq<Continuation>, gens: seq<nat>,
                   c: Continuation, h: nat, g: nat, v: string, d: nat)
    requires |gens| == |drained|
    ensures Offers(es, maxDepth, conts, drained, gens, g, v, d) ==>
              Offers(es, maxDepth, conts, drained + [c], gens + [h], g, v, d)
    ensures Offers(es, maxDepth, conts, drained + [c], gens + [h], g, v, d) ==>
              || Offers(es, maxDepth, conts, drained, gens, g, v, d)
              || (g == h + 1 && c.depth < maxDepth && d == c.depth + 1
                  && exists e :: e in es && e.from == c.vertex && e.to == v)
  {
    var more, gs := drained + [c], gens + [h];
    if g > 0 && Offers(es, maxDepth, conts, drained, gens, g, v, d) {
      var j, e :| 0 <= j < |drained| && gens[j] == g - 1 && drained[j].depth < maxDepth && d == drained[j].depth + 1
                  && e in es && e.from == drained[j].vertex && e.to == v;
      assert more[j] == drained[j] && gs[j] == gens[j];
    }
    if g > 0 && Offers(es, maxDepth, conts, more, gs, g, v, d) {
      var j, e :| 0 <= j < |more| && gs[j] == g - 1 && more[j].depth < maxDepth && d == more[j].depth + 1
                  && e in es && e.from == more[j].vertex && e.to == v;
      if j < |drained| {
        assert more[j] == drained[j] && gs[j] == gens[j];
      }
    }
  }

  /** Appending the next wave at the end keeps the queue in order. */
  lemma OrderAfterAccept(drained: seq<Continuation>, gens: seq<nat>, queue: seq<Continuation>, waves: seq<nat>,
                         more: seq<Continuation>)
    requires |gens| == |drained| && |waves| == |queue| > 0 && InOrder(drained, gens, queue, waves)
    requires forall c :: c in more ==> c.depth == queue[0].depth + 1
    ensures InOrder(drained + [queue[0]], gens + [waves[0]], queue[1..] + more, NextWave(waves, |more|))
  {
    var rest, ws := queue[1..] + more, NextWave(waves, |more|);
    forall j | 0 <= j < |rest| ensures NotAfter(waves[0], queue[0].depth, ws[j], rest[j].depth) {
      if j < |queue| - 1 { assert rest[j] == queue[j + 1]; } else { assert rest[j] in more; }
    }
    forall j | 0 <= j < |rest| ensures NotAfter(ws[j], rest[j].depth, waves[0] + 1, queue[0].depth + 1) {
      if j < |queue| - 1 { assert rest[j] == queue[j + 1]; } else { assert rest[j] in more; }
    }
    forall i, j | 0 <= i <= j < |rest| ensures NotAfter(ws[i], rest[i].depth, ws[j], rest[j].depth) {
      if j < |queue| - 1 {
        assert rest[i] == queue[i + 1] && rest[j] == queue[j + 1];
      } else {
        assert rest[j] in more;
      }
    }
    forall i, j | 0 <= i < |drained| && 0 <= j < |rest|
      ensures NotAfter(gens[i], drained[i].depth, ws[j], rest[j].depth)
    {
      assert NotAfter(gens[i], drained[i].depth, waves[0], queue[0].depth);
    }
  }

  lemma SettledAfterAccept(marked: set<string>, drained: seq<Continuation>, gens: seq<nat>, queue: seq<Continuation>,
                           waves: seq<nat>,
                           more: seq<Continuation>, g: nat, v: string, d: nat)
    requires |gens| == |drained| && |waves| == |queue| > 0
    requires Settled(marked, drained, gens, queue, waves, g, v, d)
    ensures Settled(marked, drained + [queue[0]], gens + [waves[0]], queue[1..] + more, NextWave(waves, |more|),
                    g, v, d)
  {
    var done, gs, rest, ws := drained + [queue[0]], gens + [waves[0]], queue[1..] + more, NextWave(waves, |more|);
    if v in marked {
    } else if DrainedBy(drained, gens, g, v, d) {
      var i :| 0 <= i < |drained| && drained[i].vertex == v && NotAfter(gens[i], drained[i].depth, g, d);
      assert done[i] == drained[i] && gs[i] == gens[i];
      assert DrainedBy(done, gs, g, v, d);
    } else {
      var j :| 0 <= j < |queue| && queue[j].vertex == v && waves[j] == g && queue[j].depth == d;
      if j == 0 {
        assert done[|drained|] == queue[0] && gs[|drained|] == waves[0];
        assert DrainedBy(done, gs, g, v, d);
      } else {
        assert rest[j - 1] == queue[j] && ws[j - 1] == waves[j];
        assert QueuedAs(rest, ws, g, v, d);
      }
    }
  }

  /** The offers the accepted head makes: marked targets were marked earlier, the others are queued. */
  lemma NewOffersSettled(es: set<Edge>, marked: set<string>, drained: seq<Continuation>, gens: seq<nat>,
                         queue: seq<Continuation>, waves: seq<nat>, more: seq<Continuation>, e: Edge)
    requires |gens| == |drained| && |waves| == |queue| > 0 && InOrder(drained, gens, queue, waves)
    requires e.to in marked + ContinuationVertices(drained) + {queue[0].vertex} || CarryDepth(queue[0], e) in more
    ensures Settled(marked, drained + [queue[0]], gens + [waves[0]], queue[1..] + more, NextWave(waves, |more|),
                    waves[0] + 1, e.to, queue[0].depth + 1)
  {
    var done, gs, rest, ws := drained + [queue[0]], gens + [waves[0]], queue[1..] + more, NextWave(waves, |more|);
    var g, d := waves[0] + 1, queue[0].depth + 1;
    if e.to in marked {
    } else if e.to == queue[0].vertex {
      assert done[|drained|] == queue[0] && gs[|drained|] == waves[0];
      assert DrainedBy(done, gs, g, e.to, d);
    } else if e.to in ContinuationVertices(drained) {
      var c :| c in drained && c.vertex == e.to;
      var i :| 0 <= i < |drained| && drained[i] == c;
      assert NotAfter(gens[i], drained[i].depth, waves[0], queue[0].depth);
      assert done[i] == drained[i] && gs[i] == gens[i];
      assert DrainedBy(done, gs, g, e.to, d);
    } else {
      var k :| 0 <= k < |more| && more[k] == CarryDepth(queue[0], e);
      var j := |queue| - 1 + k;
      assert rest[j] == more[k] && ws[j] == g;
      assert QueuedAs(rest, ws, g, e.to, d);
    }
  }

  lemma OfferedAfterAccept(es: set<Edge>, maxDepth: int, conts: seq<Continuation>, drained: seq<Continuation>,
                           gens: seq<nat>,
                           queue: seq<Continuation>, waves: seq<nat>, more: seq<Continuation>)
    requires |gens| == |drained| && |waves| == |queue| > 0
    requires Offered(es, maxDepth, conts, drained, gens, drained, gens)
             && Offered(es, maxDepth, conts, drained, gens, queue, waves)
    requires forall c :: c in more ==> queue[0].depth < maxDepth && exists e :: e in es && e.from == queue[0].vertex
                                                                                && c == CarryDepth(queue[0], e)
    ensures var done, gs := drained + [queue[0]], gens + [waves[0]];
            Offered(es, maxDepth, conts, done, gs, done, gs)
                && Offered(es, maxDepth, conts, done, gs, queue[1..] + more, NextWave(waves, |more|))
  {
    var done, gs, rest, ws := drained + [queue[0]], gens + [waves[0]], queue[1..] + more, NextWave(waves, |more|);
    forall i | 0 <= i < |done| ensures Offers(es, maxDepth, conts, done, gs, gs[i], done[i].vertex, done[i].depth) {
      OffersGrow(es, maxDepth, conts, drained, gens, queue[0], waves[0], gs[i], done[i].vertex, done[i].depth);
      if i < |drained| { assert done[i] == drained[i] && gs[i] == gens[i]; }
    }
    forall j | 0 <= j < |rest| ensures Offers(es, maxDepth, conts, done, gs, ws[j], rest[j].vertex, rest[j].depth) {
      if j < |queue| - 1 {
        assert rest[j] == queue[j + 1] && ws[j] == waves[j + 1];
        OffersGrow(es, maxDepth, conts, drained, gens, queue[0], waves[0], ws[j], rest[j].vertex, rest[j].depth);
      } else {
        assert rest[j] in more;
        assert done[|drained|] == queue[0] && gs[|drained|] == waves[0];
      }
    }
  }

  /** Accepting an unmarked head and queueing its unmarked targets. */
  lemma WavesAccept(es: set<Edge>, maxDepth: int, conts: seq<Continuation>, marked: set<string>,
                    drained: seq<Continuation>, gens: seq<nat>, queue: seq<Continuation>, waves: seq<nat>,
                    more: seq<Continuation>)
    requires Waved(es, maxDepth, conts, marked, drained, gens, queue, waves) && |queue| > 0
    requires queue[0].depth >= maxDepth ==> more == []
    requires queue[0].depth < maxDepth ==> forall c :: c in more <==>
               exists e :: e in es && e.from == queue[0].vertex
                           && e.to !in marked + ContinuationVertices(drained) + {queue[0].vertex}
                           && c == CarryDepth(queue[0], e)
    ensures Waved(es, maxDepth, conts, marked, drained + [queue[0]], gens + [waves[0]],
                  queue[1..] + more, NextWave(waves, |more|))
  {
    var head, done, gs := queue[0], drained + [queue[0]], gens + [waves[0]];
    var rest, ws := queue[1..] + more, NextWave(waves, |more|);
    OrderAfterAccept(drained, gens, queue, waves, more);
    OfferedAfterAccept(es, maxDepth, conts, drained, gens, queue, waves, more);
    forall g: nat, v, d: nat | Offers(es, maxDepth, conts, done, gs, g, v, d)
      ensures Settled(marked, done, gs, rest, ws, g, v, d)
    {
      OffersGrow(es, maxDepth, conts, drained, gens, head, waves[0], g, v, d);
      if Offers(es, maxDepth, conts, drained, gens, g, v, d) {
        SettledAfterAccept(marked, drained, gens, queue, waves, more, g, v, d);
      } else {
        var e :| e in es && e.from == head.vertex && e.to == v;
        NewOffersSettled(es, marked, drained, gens, queue, waves, more, e);
      }
    }
  }

  /** Sorted input can be drained in waves. */
  ghost predicate Waving(es: set<Edge>, maxDepth: int, conts: seq<Continuation>, marked: set<string>,
                         drained: seq<Continuation>, queue: seq<Continuation>)
  {
    Rising(conts) ==> exists gens, waves :: Waved(es, maxDepth, conts, marked, drained, gens, queue, waves)
  }

  lemma WavingBy(es: set<Edge>, maxDepth: int, conts: seq<Continuation>, marked: set<string>,
                 drained: seq<Continuation>, gens: seq<nat>, queue: seq<Continuation>, waves: seq<nat>)
    requires Waved(es, maxDepth, conts, marked, drained, gens, queue, waves)
    ensures Waving(es, maxDepth, conts, marked, drained, queue)
  {
  }

  lemma WavingStarts(es: set<Edge>, maxDepth: int, conts: seq<Continuation>, marked: set<string>)
    ensures Waving(es, maxDepth, conts, marked, [], conts)
  {
    if Rising(conts) {
      WavesStart(es, maxDepth, conts, marked);
    }
  }

  lemma WavingSkips(es: set<Edge>, maxDepth: int, conts: seq<Continuation>, marked: set<string>,
                    drained: seq<Continuation>, queue: seq<Continuation>)
    requires Waving(es, maxDepth, conts, marked, drained, queue) && |queue| > 0
    requires queue[0].vertex in marked + ContinuationVertices(drained)
    ensures Waving(es, maxDepth, conts, marked, drained, queue[1..])
  {
    if Rising(conts) {
      var gens, waves :| Waved(es, maxDepth, conts, marked, drained, gens, queue, waves);
      WavesSkip(es, maxDepth, conts, marked, drained, gens, queue, waves);
    }
  }

  lemma WavingAccepts(es: set<Edge>, maxDepth: int, conts: seq<Continuation>, marked: set<string>,
                      drained: seq<Continuation>, queue: seq<Continuation>, more: seq<Continuation>)
    requires Waving(es, maxDepth, conts, marked, drained, queue) && |queue| > 0
    requires queue[0].depth >= maxDepth ==> more == []
    requires queue[0].depth < maxDepth ==> forall c :: c in more <==>
               exists e :: e in es && e.from == queue[0].vertex
                           && e.to !in marked + ContinuationVertices(drained) + {queue[0].vertex}
                           && c == CarryDepth(queue[0], e)
    ensures Waving(es, maxDepth, conts, marked, drained + [queue[0]], queue[1..] + more)
  {
    if Rising(conts) {
      var gens, waves :| Waved(es, maxDepth, conts, marked, drained, gens, queue, waves);
      WavesAccept(es, maxDepth, conts, marked, drained, gens, queue, waves, more);
      WavingBy(es, maxDepth, conts, marked, drained + [queue[0]], gens + [waves[0]], queue[1..]
               + more, NextWave(waves, |more|));
    }
  }
}
