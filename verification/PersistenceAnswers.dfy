/** Exactly what events leave waiting, what a flush writes of it, and how it is answered. */
module PersistenceAnswers {
  import opened Journals
  import opened PersistenceSpec
  import opened PersistenceProofs

  // ---- what waits

  /** The batch names nothing single of this component. */
  predicate NamesNone(marks: Marks, c: Component) {
    c in marks ==> !marks[c].replace && marks[c].keys == {}
  }

  /** A batch names what it named before and what the event names, and no more. */
  lemma GatheredExactly(batch: Marks, event: Marks, p: Piece)
    ensures Names(Gather(batch, event), p) <==> Names(batch, p) || Names(event, p)
    ensures p.component in Gather(batch, event) <==> p.component in batch || p.component in event
    ensures NamesNone(batch, p.component) && NamesNone(event, p.component) ==> NamesNone(Gather(batch, event), p.component)
  {
  }

  /** An event without components passes by; every other one joins the batch and starts the
      timer. */
  lemma ObservedExactly(w: Worker, event: Event)
    ensures var d := Observe(w, event);
            && d.covered >= w.covered && d.covered >= event.revision && d.covered in {w.covered, event.revision}
            && d == w.(covered := d.covered, pending := d.pending, armed := d.armed)
            && (event.marks == map[] ==> d.pending == w.pending && d.armed == w.armed)
            && (event.marks != map[] ==>
                  && d.armed && d.pending.latest >= w.pending.latest && d.pending.latest >= event.revision
                  && d.pending.latest in {w.pending.latest, event.revision}
                  && d.pending.marks == Gather(w.pending.marks, event.marks))
  {
  }

  /** Folded into one, events name what some of them named. */
  lemma {:induction false} FoldedExactly(events: seq<Event>, p: Piece)
    ensures Names(UnionOf(events), p) <==> exists i :: 0 <= i < |events| && Names(events[i].marks, p)
    decreases |events|
  {
    if events != [] {
      var before := events[..|events| - 1];
      FoldedExactly(before, p);
      if Names(UnionOf(before), p) {
        var i :| 0 <= i < |before| && Names(before[i].marks, p);
        assert Names(events[i].marks, p);
      }
      if exists i :: 0 <= i < |events| && Names(events[i].marks, p) {
        var i :| 0 <= i < |events| && Names(events[i].marks, p);
        if i < |before| { assert Names(before[i].marks, p); }
      }
    }
  }

  lemma {:induction false} DrainTakes(w: Worker, revision: nat)
    ensures var d := Drain(w, revision);
            |d.queue| <= |w.queue| && d.commits == w.commits && d.known == w.known && d.disk == w.disk
    decreases |w.queue|
  {
    if w.covered < revision && w.queue != [] { DrainTakes(Deliver(w), revision); }
  }

  lemma StepKeepsBound(w: Worker, s: Step)
    requires |w.queue| <= 128 && Enabled(w, s)
    ensures |Apply(w, s).queue| <= 128
  {
    if s.Requested? && s.revision > w.baseline { DrainTakes(w, s.revision); }
  }

  /** However many commits are published before one is delivered, at most 128 events wait. */
  lemma {:induction false} QueueIsBounded(w: Worker, steps: seq<Step>)
    requires |w.queue| <= 128 && Allowed(w, steps)
    ensures |Run(w, steps).queue| <= 128
    decreases |steps|
  {
    if steps != [] {
      StepKeepsBound(w, steps[0]);
      QueueIsBounded(Apply(w, steps[0]), steps[1..]);
    }
  }

  // ---- what a flush writes

  /** The manifest that a save continues: the writer's own; without one, the manifest on disk
      unless it is newer than what waits; else none. */
  predicate Continues(w: Worker, m: Manifest) {
    if w.known.Some? then m == w.known.value
    else if w.disk.present && w.disk.revision <= w.pending.latest then m == w.disk
    else m == Manifest(false, 0, {}, {}, map[])
  }

  /** A save writes a piece when its component is dirty or not yet in the manifest, and, for
      an entry, when it is named, or its component has no entry with a file, or rewrites all
      of them because none is named. */
  predicate Rewritten(w: Worker, m: Manifest, p: Piece) {
    && (p.component in w.pending.marks || (p.component in w.all && p.component !in m.indexed))
    && (p.key.None? || Names(w.pending.marks, p) || (forall q :: q in m.files ==> q.component != p.component)
        || (p.component in w.eager && NamesNone(w.pending.marks, p.component)))
  }

  lemma WritesExactly(w: Worker, m: Manifest, p: Piece)
    requires Continues(w, m)
    ensures Writes(w, p) <==> Rewritten(w, m, p)
  {
    assert Base(w) == m;
    if p.component !in w.pending.marks { assert Marked(w.pending.marks, p.component) == NO_MARK; }
  }

  /** A working save takes the rewritten pieces from the newest generation that waits, and
      everything else from the manifest it continues. */
  lemma SavedExactly(w: Worker, m: Manifest, p: Piece)
    requires Continues(w, m) && 0 < w.pending.latest < |w.commits|
    requires w.known.Some? ==> w.known.value.revision <= w.pending.latest
    ensures var d := Flush(w, Synced).0;
            var entries := w.commits[w.pending.latest].entries;
            && d.known == Some(d.disk) && d.disk.present && d.disk.revision == w.pending.latest
            && d.disk.indexed == m.indexed + w.all
            && (Rewritten(w, m, p) && p in w.pieces ==> At(d.disk, p) == w.pending.latest)
            && (!Rewritten(w, m, p) ==> At(d.disk, p) == At(m, p))
            && (p in d.disk.files <==> p in if p.key.Some? && Rewritten(w, m, p) then entries else m.files)
  {
    WritesExactly(w, m, p);
  }

  /** A flush fails if and only if something waits and its write is not synced, except that a
      batch older than the writer's manifest needs no write to be synced. A failed flush keeps
      the batch; a good one empties it, stops the timer, and counts as saved what was observed
      up to its generation. */
  lemma FlushedExactly(w: Worker, outcome: WriteOutcome)
    ensures var (d, reply) := Flush(w, outcome);
            var older := w.known.Some? && w.pending.latest < w.known.value.revision;
            && (reply.Failed? <==> w.pending.latest > 0 && (outcome.NotRenamed? || (outcome.RenamedUnsynced? && !older)))
            && (reply.Failed? ==> d == w.(disk := if outcome.NotRenamed? then w.disk else Flush(w, Synced).0.disk))
            && (w.pending.latest == 0 ==> d == w)
            && (older ==> d.disk == w.disk && d.known == w.known)
            && (w.pending.latest > 0 && reply.Done? ==>
                  && d.pending == Batch(0, map[]) && !d.armed && d.commits == w.commits && d.queue == w.queue
                  && d.covered == w.covered && d.consumed == w.consumed && d.published == w.published
                  && d.persisted >= w.persisted && (d.persisted >= w.covered || d.persisted >= w.pending.latest)
                  && (d.persisted == w.persisted || (d.persisted <= w.covered && d.persisted <= w.pending.latest)))
  {
  }

  // ---- files over runs

  /** A saved entry has a file exactly when the generation it was saved from has the entry. */
  ghost predicate FilesFit(commits: seq<Change>, m: Manifest) {
    forall p :: p in m.at && p.key.Some? ==> m.at[p] < |commits| && (p in m.files <==> p in commits[m.at[p]].entries)
  }

  ghost predicate Fits(w: Worker) {
    FilesFit(w.commits, w.disk) && FilesFit(w.commits, Secured(w.known))
  }

  lemma FlushFits(w: Worker, outcome: WriteOutcome)
    requires Fits(w) && w.pending.latest < |w.commits|
    ensures Fits(Flush(w, outcome).0)
  {
    assert FilesFit(w.commits, Base(w));
    assert FilesFit(w.commits, Next(w));
  }

  lemma ReadyKeeps(w: Worker, revision: nat)
    requires Valid(w) && 0 < revision <= w.published
    ensures var d := Ready(w, revision);
            d.commits == w.commits && d.known == w.known && d.disk == w.disk && d.pending.latest < |d.commits|
  {
    ReadyIsValid(w, revision);
    if revision > w.baseline { DrainTakes(w, revision); }
  }

  lemma ForceFits(w: Worker, revision: nat, outcome: WriteOutcome)
    requires Valid(w) && Fits(w) && revision <= w.published
    ensures Fits(Force(w, revision, outcome).0)
  {
    if revision > 0 && (revision > w.baseline || w.all != {}) {
      ReadyKeeps(w, revision);
      FlushFits(Ready(w, revision), outcome);
    }
  }

  lemma StepKeepsFits(w: Worker, s: Step)
    requires Valid(w) && Fits(w) && Enabled(w, s)
    ensures Fits(Apply(w, s))
  {
    match s
    case Timer(outcome) => FlushFits(w, outcome);
    case Requested(revision, outcome) => ForceFits(w, revision, outcome);
    case _ =>
  }

  lemma {:induction false} RunKeepsFits(w: Worker, steps: seq<Step>)
    requires Valid(w) && Fits(w) && Allowed(w, steps)
    ensures Fits(Run(w, steps))
    decreases |steps|
  {
    if steps != [] {
      StepKeepsFits(w, steps[0]);
      StepKeepsValid(w, steps[0]);
      RunKeepsFits(Apply(w, steps[0]), steps[1..]);
    }
  }

  /** Over any run, failed and unsynced saves included: an entry saved by this process has a
      file in the manifest exactly when the generation it was saved from has that entry. No
      deleted entry comes back and no saved one is missing. */
  lemma FilesAreEntries(start: Worker, steps: seq<Step>, p: Piece)
    requires Initial(start) && Allowed(start, steps) && p.key.Some?
    ensures var w := Run(start, steps);
            && (p in w.disk.at ==> w.disk.at[p] < |w.commits| && (p in w.disk.files <==> p in w.commits[w.disk.at[p]].entries))
            && (w.known.Some? && p in w.known.value.at ==>
                  var at := w.known.value.at[p];
                  at < |w.commits| && (p in w.known.value.files <==> p in w.commits[at].entries))
  {
    InitialIsValid(start);
    RunKeepsFits(start, steps);
  }
}
