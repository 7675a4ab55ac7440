/** What an acknowledged save makes durable: every change that its commit named, after any
    run, and every other change exactly when the flush writes it anyway. */
module PersistenceProofs {
  import opened Journals
  import opened PersistenceSpec

  /** Everything changed after one revision and up to another survives a power loss. */
  ghost predicate SavedBetween(w: Worker, low: nat, high: nat) {
    forall c, p | low < c <= high && ChangedIn(w.commits, c, p) :: At(Secured(w.known), p) >= c
  }

  ghost predicate Durable(w: Worker, revision: nat) {
    SavedBetween(w, w.baseline, revision)
  }

  /** The same for the pieces that the commits named. */
  ghost predicate NamedDurable(w: Worker, revision: nat) {
    forall c, p | w.baseline < c <= revision && p in w.pieces && NamedIn(w.commits, c, p) :: At(Secured(w.known), p) >= c
  }

  /** What has been taken from the queue is saved or waits in the batch. */
  ghost predicate NothingLost(w: Worker) {
    forall c, p | w.baseline < c <= w.covered && p in w.pieces && NamedIn(w.commits, c, p) ::
      At(Secured(w.known), p) >= c || (Names(w.pending.marks, p) && c <= w.pending.latest)
  }

  /** No saved piece is newer than its manifest, and the manifest on disk is nowhere behind
      the writer's. */
  ghost predicate WriterKnows(known: Option<Manifest>, disk: Manifest, persisted: nat) {
    && (known.None? ==> persisted == 0)
    && (known.Some? ==> known.value.revision <= persisted)
    && (forall p :: At(Secured(known), p) <= Secured(known).revision)
    && (forall p :: At(disk, p) <= disk.revision)
    && (forall p :: At(Secured(known), p) <= At(disk, p))
  }

  ghost predicate Shaped(w: Worker) {
    && |w.commits| > 0 && (forall c :: 0 <= c < |w.commits| ==> Declared(w, w.commits[c]))
    && (forall c :: c in w.all ==> Piece(c, None) in w.pieces)
    && w.published <= Head(w) <= w.published + 1 && w.baseline <= w.covered <= Head(w) && w.consumed <= w.covered
    && (w.covered == w.baseline || w.covered == w.consumed)
    && w.pending.latest <= w.covered && (w.pending.latest == 0 ==> w.pending.marks == map[])
    && w.persisted <= w.covered
  }

  ghost predicate Valid(w: Worker) {
    Shaped(w) && Queued(w) && NamedDurable(w, w.persisted) && WriterKnows(w.known, w.disk, w.persisted) && NothingLost(w)
  }

  /** Commits are only added, and no saved piece goes back. */
  ghost predicate Grows(w: Worker, d: Worker) {
    && w.commits <= d.commits && d.baseline == w.baseline && d.all == w.all && d.pieces == w.pieces && d.eager == w.eager
    && forall p :: At(Secured(d.known), p) >= At(Secured(w.known), p)
  }

  lemma InitialIsValid(w: Worker)
    requires Initial(w)
    ensures Valid(w)
  {
  }

  // ---- the queue

  lemma {:induction false} UnionHolds(events: seq<Event>, i: nat, p: Piece)
    requires i < |events| && Names(events[i].marks, p)
    ensures Names(UnionOf(events), p)
    decreases |events|
  {
    if i < |events| - 1 {
      UnionHolds(events[..|events| - 1], i, p);
    }
  }

  /** Some queued event spans each revision that is still queued. */
  lemma {:induction false} SpanOf(w: Worker, c: nat, n: nat) returns (i: nat)
    requires Queued(w) && 0 < n <= |w.queue|
    requires w.queue[0].base < c <= w.queue[n - 1].revision
    ensures i < n && w.queue[i].base < c <= w.queue[i].revision
    decreases n
  {
    if c > w.queue[n - 1].base {
      i := n - 1;
    } else {
      i := SpanOf(w, c, n - 1);
    }
  }

  /** Folding a full queue into one event loses no change. */
  lemma FoldSpans(w: Worker, event: Event)
    requires Queued(w) && |w.queue| > 0 && event.base == w.published && Spans(w.commits, event)
    ensures Spans(w.commits, Event(w.queue[0].base, event.revision, UnionOf(w.queue + [event])))
  {
    var all := w.queue + [event];
    forall c, p | w.queue[0].base < c <= event.revision && NamedIn(w.commits, c, p) ensures Names(UnionOf(all), p) {
      var i := |w.queue|;
      if c <= w.published {
        i := SpanOf(w, c, |w.queue|);
        assert Spans(w.commits, w.queue[i]);
      }
      assert Names(all[i].marks, p);
      UnionHolds(all, i, p);
    }
  }

  lemma PublishCovers(w: Worker)
    requires Queued(w) && w.published + 1 < |w.commits|
    ensures Queued(Publish(w))
  {
    var d := Publish(w);
    var event := Event(w.published, w.published + 1, w.commits[w.published + 1].marks);
    assert Spans(w.commits, event);
    if |w.queue| < CHANNEL_CAPACITY {
      assert d.queue == w.queue + [event];
    } else {
      FoldSpans(w, event);
    }
  }

  lemma StoreCovers(w: Worker, change: Change)
    requires Queued(w)
    ensures Queued(Store(w, change))
  {
    var d := Store(w, change);
    forall i | 0 <= i < |d.queue| ensures Spans(d.commits, d.queue[i]) {
      assert Spans(w.commits, w.queue[i]);
      forall c, p | d.queue[i].base < c <= d.queue[i].revision && NamedIn(d.commits, c, p) ensures Names(d.queue[i].marks, p) {
        assert NamedIn(w.commits, c, p);
      }
    }
  }

  // ---- commits and deliveries

  lemma StoreKeepsValid(w: Worker, change: Change)
    requires Valid(w) && Enabled(w, Stored(change))
    ensures Valid(Store(w, change)) && Grows(w, Store(w, change))
  {
    var d := Store(w, change);
    StoreCovers(w, change);
    assert forall c: nat, p | c <= Head(w) :: NamedIn(d.commits, c, p) == NamedIn(w.commits, c, p);
  }

  lemma PublishKeepsValid(w: Worker)
    requires Valid(w) && Enabled(w, Published)
    ensures Valid(Publish(w)) && Grows(w, Publish(w))
  {
    PublishCovers(w);
  }

  lemma DeliverCovers(w: Worker)
    requires Queued(w) && w.queue != []
    ensures Queued(Deliver(w))
  {
    assert forall i :: 0 <= i < |Deliver(w).queue| ==> Deliver(w).queue[i] == w.queue[i + 1];
  }

  lemma DeliverLosesNothing(w: Worker)
    requires Valid(w) && w.queue != []
    ensures NothingLost(Deliver(w))
  {
    var d, event := Deliver(w), w.queue[0];
    assert Spans(w.commits, event);
    forall c, p | d.baseline < c <= d.covered && p in d.pieces && NamedIn(d.commits, c, p)
      ensures At(Secured(d.known), p) >= c || (Names(d.pending.marks, p) && c <= d.pending.latest)
    {
      if c > w.covered {
        assert Names(event.marks, p);
      }
    }
  }

  lemma DeliverKeepsValid(w: Worker)
    requires Valid(w) && w.queue != []
    ensures Valid(Deliver(w)) && Grows(w, Deliver(w)) && Deliver(w).covered >= w.covered
  {
    DeliverCovers(w);
    DeliverLosesNothing(w);
  }

  lemma {:induction false} DrainCovers(w: Worker, revision: nat)
    requires Valid(w) && revision <= w.published
    ensures var d := Drain(w, revision);
            Valid(d) && Grows(w, d) && d.covered >= revision && d.commits == w.commits && d.known == w.known && d.published == w.published
    decreases |w.queue|
  {
    if w.covered < revision && w.queue != [] {
      DeliverKeepsValid(w);
      DrainCovers(Deliver(w), revision);
    }
  }

  lemma EarlierKeepsValid(w: Worker, revision: nat)
    requires Valid(w) && 0 < revision <= w.baseline
    ensures var d := Ready(w, revision); Valid(d) && Grows(w, d) && d.known == w.known
  {
  }

  lemma ReadyIsValid(w: Worker, revision: nat)
    requires Valid(w) && 0 < revision <= w.published
    ensures var d := Ready(w, revision);
            Valid(d) && Grows(w, d) && d.covered >= revision && d.commits == w.commits && d.known == w.known && d.published == w.published
  {
    if revision <= w.baseline { EarlierKeepsValid(w, revision); } else { DrainCovers(w, revision); }
  }

  // ---- flushes

  lemma NextSaves(w: Worker, p: Piece)
    requires Valid(w) && w.pending.latest > 0 && !Skips(w)
    ensures At(Secured(w.known), p) <= At(Next(w), p) <= w.pending.latest
    ensures p in w.pieces && Names(w.pending.marks, p) ==> At(Next(w), p) == w.pending.latest
  {
  }

  /** A successful flush leaves nothing behind that a commit named. */
  lemma FlushSavesNamed(w: Worker, outcome: WriteOutcome)
    requires Valid(w) && Flush(w, outcome).1 == Done
    ensures var d := Flush(w, outcome).0; NamedDurable(d, d.covered) && d.covered == w.covered
  {
    var d := Flush(w, outcome).0;
    if w.pending.latest > 0 {
      forall c, p | d.baseline < c <= d.covered && p in d.pieces && NamedIn(d.commits, c, p) ensures At(Secured(d.known), p) >= c {
        if !Skips(w) { NextSaves(w, p); }
      }
    }
  }

  lemma RefusedKeepsValid(w: Worker, outcome: WriteOutcome)
    requires Valid(w) && Flush(w, outcome).1 == Failed
    ensures Valid(Flush(w, outcome).0) && Grows(w, Flush(w, outcome).0)
  {
    if outcome == RenamedUnsynced {
      forall p ensures At(Secured(w.known), p) <= At(Next(w), p) <= w.pending.latest { NextSaves(w, p); }
    }
  }

  lemma FlushedKnows(w: Worker)
    requires Valid(w) && w.pending.latest > 0 && !Skips(w)
    ensures WriterKnows(Some(Next(w)), Next(w), w.pending.latest)
    ensures forall p :: At(Next(w), p) >= At(Secured(w.known), p)
  {
    forall p ensures At(Secured(w.known), p) <= At(Next(w), p) <= w.pending.latest { NextSaves(w, p); }
  }

  lemma FlushKeepsValid(w: Worker, outcome: WriteOutcome)
    requires Valid(w)
    ensures Valid(Flush(w, outcome).0) && Grows(w, Flush(w, outcome).0)
  {
    if Flush(w, outcome).1 == Failed {
      RefusedKeepsValid(w, outcome);
    } else if w.pending.latest > 0 {
      FlushSavesNamed(w, outcome);
      if !Skips(w) {
        FlushedKnows(w);
        assert Flush(w, outcome).0.known == Some(Next(w));
      }
    }
  }

  lemma AnswerKeepsValid(ready: Worker, revision: nat, outcome: WriteOutcome)
    requires Valid(ready)
    ensures Valid(Answer(ready, revision, outcome).0) && Grows(ready, Answer(ready, revision, outcome).0)
  {
    if ready.persisted < revision { FlushKeepsValid(ready, outcome); }
  }

  lemma ForceKeepsValid(w: Worker, revision: nat, outcome: WriteOutcome)
    requires Valid(w) && revision <= w.published
    ensures Valid(Force(w, revision, outcome).0) && Grows(w, Force(w, revision, outcome).0)
  {
    if revision > 0 && (revision > w.baseline || w.all != {}) {
      var ready := Ready(w, revision);
      ReadyIsValid(w, revision);
      AnswerKeepsValid(ready, revision, outcome);
    }
  }

  lemma StepKeepsValid(w: Worker, s: Step)
    requires Valid(w) && Enabled(w, s)
    ensures Valid(Apply(w, s)) && Grows(w, Apply(w, s))
  {
    match s
    case Stored(change) => StoreKeepsValid(w, change);
    case Published => PublishKeepsValid(w);
    case Delivered => DeliverKeepsValid(w);
    case Timer(outcome) => FlushKeepsValid(w, outcome);
    case Requested(revision, outcome) => ForceKeepsValid(w, revision, outcome);
  }

  lemma {:induction false} RunKeepsValid(w: Worker, steps: seq<Step>)
    requires Valid(w) && Allowed(w, steps)
    ensures Valid(Run(w, steps)) && Grows(w, Run(w, steps))
    decreases |steps|
  {
    if steps != [] {
      StepKeepsValid(w, steps[0]);
      RunKeepsValid(Apply(w, steps[0]), steps[1..]);
    }
  }

  /** No later step loses a change that is durable. */
  lemma DurableIsKept(w: Worker, steps: seq<Step>, revision: nat)
    requires Valid(w) && Allowed(w, steps) && revision <= Head(w)
    ensures NamedDurable(w, revision) ==> NamedDurable(Run(w, steps), revision)
    ensures forall low | SavedBetween(w, low, revision) :: SavedBetween(Run(w, steps), low, revision)
  {
    RunKeepsValid(w, steps);
    var d := Run(w, steps);
    assert forall c: nat, p | c <= revision ::
        ChangedIn(d.commits, c, p) == ChangedIn(w.commits, c, p) && NamedIn(d.commits, c, p) == NamedIn(w.commits, c, p);
  }

  // ---- the timer

  /** Whatever waits has the timer running for it. */
  predicate Armed(w: Worker) {
    w.pending.latest > 0 ==> w.armed
  }

  lemma {:induction false} DrainKeepsArmed(w: Worker, revision: nat)
    requires Armed(w)
    ensures Armed(Drain(w, revision))
    decreases |w.queue|
  {
    if w.covered < revision && w.queue != [] { DrainKeepsArmed(Deliver(w), revision); }
  }

  lemma StepKeepsArmed(w: Worker, s: Step)
    requires Armed(w) && Enabled(w, s)
    ensures Armed(Apply(w, s))
  {
    if s.Requested? && s.revision > w.baseline { DrainKeepsArmed(w, s.revision); }
  }

  lemma {:induction false} RunKeepsArmed(w: Worker, steps: seq<Step>)
    requires Armed(w) && Allowed(w, steps)
    ensures Armed(Run(w, steps))
    decreases |steps|
  {
    if steps != [] {
      StepKeepsArmed(w, steps[0]);
      RunKeepsArmed(Apply(w, steps[0]), steps[1..]);
    }
  }

  /** Nothing waits forever: after any run, failed flushes included, either nothing waits or
      the timer runs, and its next working flush takes everything and stops it. */
  lemma TimerComes(start: Worker, steps: seq<Step>)
    requires Initial(start) && Allowed(start, steps)
    ensures var w := Run(start, steps);
            w.pending.latest > 0 ==>
              && Enabled(w, Timer(Synced)) && !Apply(w, Timer(Synced)).armed && Apply(w, Timer(Synced)).pending == EMPTY
              && NamedDurable(Apply(w, Timer(Synced)), w.covered)
  {
    InitialIsValid(start);
    RunKeepsValid(start, steps);
    RunKeepsArmed(start, steps);
    FlushSavesNamed(Run(start, steps), Synced);
  }

  // ---- requests above the baseline

  /** A nil answer above the baseline means that every change up to that revision which its
      commit named is on disk. */
  lemma AcknowledgedIsDurable(w: Worker, revision: nat, outcome: WriteOutcome)
    requires Valid(w) && w.baseline < revision <= w.published && Force(w, revision, outcome).1 == Done
    ensures NamedDurable(Force(w, revision, outcome).0, revision)
  {
    var ready := Ready(w, revision);
    ReadyIsValid(w, revision);
    if ready.persisted < revision { FlushSavesNamed(ready, outcome); }
  }

  lemma WorkingWriteAnswers(w: Worker, revision: nat)
    requires Valid(w) && w.baseline < revision <= w.published
    ensures Force(w, revision, Synced).1 == Done && NamedDurable(Force(w, revision, Synced).0, revision)
  {
    AcknowledgedIsDurable(w, revision, Synced);
  }

  lemma RefusedFlushKeepsWaiting(ready: Worker, revision: nat, outcome: WriteOutcome)
    requires Answer(ready, revision, outcome).1 == Failed
    ensures var d := Answer(ready, revision, outcome).0;
            && outcome != Synced && d.known == ready.known && d.pending == ready.pending && d.published == ready.published
            && d.baseline == ready.baseline
  {
  }

  /** After a failed answer nothing that was synced has changed and everything still waits;
      the same request then succeeds as soon as a write does. */
  lemma RefusedIsRetryable(w: Worker, revision: nat, outcome: WriteOutcome)
    requires Valid(w) && w.baseline < revision <= w.published && Force(w, revision, outcome).1 == Failed
    ensures var d := Force(w, revision, outcome).0;
            && outcome != Synced && d.known == w.known && d.pending == Ready(w, revision).pending
            && Force(d, revision, Synced).1 == Done && NamedDurable(Force(d, revision, Synced).0, revision)
  {
    ReadyIsValid(w, revision);
    RefusedFlushKeepsWaiting(Ready(w, revision), revision, outcome);
    ForceKeepsValid(w, revision, outcome);
    WorkingWriteAnswers(Force(w, revision, outcome).0, revision);
  }

  lemma AcknowledgedForGood(w: Worker, revision: nat, outcome: WriteOutcome, after: seq<Step>)
    requires Valid(w) && w.baseline < revision <= w.published && Force(w, revision, outcome).1 == Done
    requires Allowed(Force(w, revision, outcome).0, after)
    ensures var d := Run(Force(w, revision, outcome).0, after); Valid(d) && NamedDurable(d, revision)
  {
    var d := Force(w, revision, outcome).0;
    AcknowledgedIsDurable(w, revision, outcome);
    ForceKeepsValid(w, revision, outcome);
    DurableIsKept(d, after, revision);
    RunKeepsValid(d, after);
  }

  /** The promise over whole runs: after any order of commits, publications, deliveries,
      timer flushes, failures and requests, a nil answer makes what the commits named up to
      the revision durable for good, which is everything when they named all they changed. */
  lemma AcknowledgementHolds(start: Worker, before: seq<Step>, revision: nat, outcome: WriteOutcome, after: seq<Step>)
    requires Initial(start) && Allowed(start, before)
    requires start.baseline < revision <= Run(start, before).published
    requires Force(Run(start, before), revision, outcome).1 == Done
    requires Allowed(Force(Run(start, before), revision, outcome).0, after)
    ensures var d := Run(Force(Run(start, before), revision, outcome).0, after);
            && NamedDurable(d, revision)
            && ((forall c, p | ChangedIn(d.commits, c, p) :: NamedIn(d.commits, c, p)) ==> Durable(d, revision))
  {
    InitialIsValid(start);
    RunKeepsValid(start, before);
    var w := Run(start, before);
    AcknowledgedForGood(w, revision, outcome, after);
    NamedIsAll(Run(Force(w, revision, outcome).0, after), revision);
  }

  lemma NamedIsAll(w: Worker, revision: nat)
    requires Valid(w) && NamedDurable(w, revision)
    ensures (forall c, p | ChangedIn(w.commits, c, p) :: NamedIn(w.commits, c, p)) ==> Durable(w, revision)
  {
    if forall c, p | ChangedIn(w.commits, c, p) :: NamedIn(w.commits, c, p) {
      forall c, p | w.baseline < c <= revision && ChangedIn(w.commits, c, p) ensures At(Secured(w.known), p) >= c {
        assert Declared(w, w.commits[c]) && NamedIn(w.commits, c, p);
      }
    }
  }

  // ---- changes that no commit named

  /** The request ends in a new manifest. */
  predicate WritesNow(ready: Worker, revision: nat) {
    ready.persisted < revision && ready.pending.latest > 0 && !Skips(ready)
  }

  /** The piece is saved already, or this write rewrites it. */
  predicate Reached(ready: Worker, revision: nat, c: nat, p: Piece) {
    if WritesNow(ready, revision) then At(Base(ready), p) >= c || Writes(ready, p) else At(Secured(ready.known), p) >= c
  }

  /** Whatever changed and was taken from the queue is no newer than the batch that is
      written. */
  lemma ChangesAreNotNewer(w: Worker, c: nat, p: Piece)
    requires Valid(w) && w.baseline < c <= w.covered && ChangedIn(w.commits, c, p) && !Skips(w)
    ensures c <= w.pending.latest
  {
    var own := Piece(p.component, None);
    assert Declared(w, w.commits[c]);
    assert own in w.pieces && NamedIn(w.commits, c, own);
  }

  lemma AnswerReaches(ready: Worker, revision: nat, outcome: WriteOutcome, c: nat, p: Piece)
    requires Valid(ready) && Answer(ready, revision, outcome).1 == Done
    requires ChangedIn(ready.commits, c, p) && (c <= ready.pending.latest || ready.baseline < c <= ready.covered)
    ensures At(Secured(Answer(ready, revision, outcome).0.known), p) >= c <==> Reached(ready, revision, c, p)
  {
    if WritesNow(ready, revision) {
      if c > ready.pending.latest { ChangesAreNotNewer(ready, c, p); }
      assert Declared(ready, ready.commits[c]);
    }
  }

  /** The exact condition above the baseline: a nil answer makes all changes up to the
      revision durable if and only if the flush reaches those that no commit named. */
  lemma AcknowledgedExactly(w: Worker, revision: nat, outcome: WriteOutcome)
    requires Valid(w) && w.baseline < revision <= w.published && Force(w, revision, outcome).1 == Done
    ensures Durable(Force(w, revision, outcome).0, revision) <==>
            forall c, p | w.baseline < c <= revision && ChangedIn(w.commits, c, p) && !NamedIn(w.commits, c, p) ::
              Reached(Ready(w, revision), revision, c, p)
  {
    ReadyIsValid(w, revision);
    AcknowledgedIsDurable(w, revision, outcome);
    assert Force(w, revision, outcome) == Answer(Ready(w, revision), revision, outcome);
    forall c, p | w.baseline < c <= revision && ChangedIn(w.commits, c, p)
      ensures At(Secured(Force(w, revision, outcome).0.known), p) >= c
              <==> NamedIn(w.commits, c, p) || Reached(Ready(w, revision), revision, c, p)
    {
      AnswerReaches(Ready(w, revision), revision, outcome, c, p);
      assert Declared(w, w.commits[c]);
    }
  }

  /** After this change some run ends in a nil answer that covers it and has not saved it. */
  ghost predicate CanBeLost(w: Worker, c: nat, p: Piece) {
    exists steps, revision, outcome :: LostAfter(w, steps, revision, outcome, c, p)
  }

  predicate LostAfter(w: Worker, steps: seq<Step>, revision: nat, outcome: WriteOutcome, c: nat, p: Piece) {
    && Allowed(w, steps) && c <= revision <= Run(w, steps).published
    && Force(Run(w, steps), revision, outcome).1 == Done
    && At(Secured(Force(Run(w, steps), revision, outcome).0.known), p) < c
  }

  /** Everything committed so far has been flushed. */
  predicate Settled(w: Worker) {
    w.published == Head(w) && w.queue == [] && w.pending == EMPTY && w.known.Some?
  }

  /** One more commit, which names another entry of the same component. */
  function Overtaking(p: Piece, other: nat): Change {
    Change({Piece(p.component, Some(other))}, map[p.component := Mark(false, {other})], {})
  }

  /** The run that loses an unnamed change: the second commit joins it in the batch. */
  function Overtaken(p: Piece, other: nat): seq<Step> {
    [Published, Stored(Overtaking(p, other)), Published]
  }

  /** A run spelled out state by state. */
  lemma {:induction false} RunAlong(states: seq<Worker>, steps: seq<Step>)
    requires |states| == |steps| + 1
    requires forall i :: 0 <= i < |steps| ==> Enabled(states[i], steps[i]) && Apply(states[i], steps[i]) == states[i + 1]
    ensures Allowed(states[0], steps) && Run(states[0], steps) == states[|steps|]
    decreases |steps|
  {
    if steps != [] {
      RunAlong(states[1..], steps[1..]);
    }
  }

  lemma OvertakenRun(w: Worker, change: Change, p: Piece, other: nat)
    requires Valid(w) && Settled(w) && Enabled(w, Stored(change)) && p.component in w.all
    requires Piece(p.component, Some(other)) in w.pieces
    ensures Allowed(Store(w, change), Overtaken(p, other))
    ensures var n, next := Head(w), Overtaking(p, other);
            Run(Store(w, change), Overtaken(p, other))
              == w.(commits := w.commits + [change] + [next], published := n + 2,
                    queue := [Event(n, n + 1, change.marks), Event(n + 1, n + 2, next.marks)])
  {
    var a := Store(w, change);
    var b := Publish(a);
    var c := Store(b, Overtaking(p, other));
    RunAlong([a, b, c, Publish(c)], Overtaken(p, other));
  }

  /** Two queued events of one component, taken together: the batch names what they name. */
  lemma DrainTwo(w: Worker, a: Event, b: Event)
    requires w.queue == [a, b] && w.covered < a.revision < b.revision && w.pending == EMPTY && a.marks != map[] && b.marks != map[]
    ensures Drain(w, b.revision)
              == w.(pending := Batch(b.revision, Gather(Gather(map[], a.marks), b.marks)), armed := true, queue := [],
                    consumed := b.revision, covered := b.revision)
  {
    var x := Deliver(w);
    assert x.queue == [b];
    var y := Deliver(x);
    assert y.queue == [] && Drain(y, b.revision) == y;
    assert Drain(x, b.revision) == y;
  }

  /** A flush leaves an entry as it is when its component has files, no event of the batch
      replaces it, and the batch names other entries, or none where that means none. */
  lemma UnnamedIsLeft(ready: Worker, p: Piece)
    requires Filed(Base(ready), p.component) && p.key.Some?
    requires ready.pending.latest > 0 && !Skips(ready)
    requires var mark := Marked(ready.pending.marks, p.component);
             !mark.replace && p.key.value !in mark.keys && (mark.keys == {} ==> p.component !in ready.eager)
    ensures Flush(ready, Synced).1 == Done && At(Secured(Flush(ready, Synced).0.known), p) == At(Base(ready), p)
  {
    assert !Writes(ready, p);
  }

  lemma OvertakenBatch(w: Worker, d: Worker, change: Change, p: Piece, other: nat)
    requires Valid(w) && Settled(w) && p.component in change.marks
    requires d.queue == [Event(Head(w), Head(w) + 1, change.marks), Event(Head(w) + 1, Head(w) + 2, Overtaking(p, other).marks)]
    requires d.covered == w.covered && d.pending == EMPTY && d.known == w.known && d.persisted == w.persisted && d.baseline == w.baseline
    ensures var ready, mark := Ready(d, Head(w) + 2), change.marks[p.component];
            && ready.known == w.known && ready.persisted == w.persisted && ready.pending.latest == Head(w) + 2
            && p.component in ready.pending.marks
            && (!mark.replace ==> ready.pending.marks[p.component] == Mark(false, mark.keys + {other}))
  {
    assert p.component in d.queue[0].marks && p.component in d.queue[1].marks;
    DrainTwo(d, d.queue[0], d.queue[1]);
  }

  lemma UnnamedIsLost(w: Worker, change: Change, p: Piece, other: nat)
    requires Valid(w) && Settled(w) && Enabled(w, Stored(change)) && p in change.changed && !Names(change.marks, p)
    requires Filed(w.known.value, p.component) && p.key != Some(other) && Piece(p.component, Some(other)) in w.pieces
    ensures LostAfter(Store(w, change), Overtaken(p, other), Head(w) + 2, Synced, Head(w) + 1, p)
  {
    var start, steps := Store(w, change), Overtaken(p, other);
    OvertakenRun(w, change, p, other);
    var d := Run(start, steps);
    OvertakenBatch(w, d, change, p, other);
    var ready := Ready(d, Head(w) + 2);
    assert At(Secured(w.known), p) <= w.persisted;
    UnnamedIsLeft(ready, p);
    assert Force(d, Head(w) + 2, Synced) == Flush(ready, Synced);
  }

  lemma {:induction false} NamedIsKept(w: Worker, steps: seq<Step>, revision: nat, outcome: WriteOutcome, c: nat, p: Piece)
    requires Valid(w) && w.baseline < c < |w.commits| && p in w.pieces && Names(w.commits[c].marks, p)
    ensures !LostAfter(w, steps, revision, outcome, c, p)
  {
    if Allowed(w, steps) && c <= revision <= Run(w, steps).published && Force(Run(w, steps), revision, outcome).1 == Done {
      RunKeepsValid(w, steps);
      var d := Run(w, steps);
      AcknowledgedIsDurable(d, revision, outcome);
      ForceKeepsValid(d, revision, outcome);
      assert NamedIn(Force(d, revision, outcome).0.commits, c, p);
    }
  }

  /** Named or not is the whole difference: from any settled worker, an acknowledged change
      of an entry can be missing from the disk if and only if its commit did not name it. */
  lemma LostIffUnnamed(w: Worker, change: Change, p: Piece, other: nat)
    requires Valid(w) && Settled(w) && Enabled(w, Stored(change)) && p in change.changed
    requires Filed(w.known.value, p.component) && p.key != Some(other) && Piece(p.component, Some(other)) in w.pieces
    ensures CanBeLost(Store(w, change), Head(w) + 1, p) <==> !Names(change.marks, p)
  {
    var d, c := Store(w, change), Head(w) + 1;
    StoreKeepsValid(w, change);
    if Names(change.marks, p) {
      forall steps, revision, outcome ensures !LostAfter(d, steps, revision, outcome, c, p) {
        NamedIsKept(d, steps, revision, outcome, c, p);
      }
    } else {
      UnnamedIsLost(w, change, p, other);
    }
  }

  // ---- requests at or below the baseline

  /** Such a request is always answered once a write works. All changes up to its revision
      are then durable if and only if each is saved already or rewritten: because no earlier
      manifest is kept, because all its component's entries are, or because it is one of
      the keys in the batch. */
  lemma DefensiveRequest(w: Worker, revision: nat)
    requires Valid(w) && 0 < revision <= w.baseline && revision <= w.published
    ensures Force(w, revision, Synced).1 == Done
    ensures SavedBetween(Force(w, revision, Synced).0, 0, revision) <==>
            forall c, p | 0 < c <= revision && ChangedIn(w.commits, c, p) :: Reached(Ready(w, revision), revision, c, p)
    ensures w.persisted < revision && Base(Ready(w, revision)) == NOTHING ==> SavedBetween(Force(w, revision, Synced).0, 0, revision)
  {
    var ready, d := Ready(w, revision), Force(w, revision, Synced).0;
    ReadyIsValid(w, revision);
    forall c, p | 0 < c <= revision && ChangedIn(w.commits, c, p)
      ensures At(Secured(d.known), p) >= c <==> Reached(ready, revision, c, p)
      ensures w.persisted < revision && Base(ready) == NOTHING ==> Reached(ready, revision, c, p)
    {
      assert Declared(w, w.commits[c]);
      EarlierIsWaiting(w, revision, p.component);
      AnswerReaches(ready, revision, Synced, c, p);
    }
  }

  lemma EarlierIsWaiting(w: Worker, revision: nat, component: Component)
    requires revision <= w.baseline && component in w.all
    ensures Ready(w, revision).pending.latest >= revision && component in Ready(w, revision).pending.marks
  {
    assert component in EarlierEvent(w, revision).marks;
  }
}
