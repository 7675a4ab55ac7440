/** The persistence worker, its event channel and its snapshot writer in place. */
module Persistence {
  import opened Journals
  import opened PersistenceSpec

  class PersistenceWorker {
    const all: set<Component>
    const eager: set<Component>
    const pieces: set<Piece>
    const subscriptionBaseline: nat
    // The store's generations, the last published one and the subscriber's channel.
    var commits: seq<Change>
    var published: nat
    var channel: seq<Event>
    var latest: nat
    var marks: Marks
    var coveredRevision: nat
    var persistedCoverage: nat
    var timerArmed: bool
    var current: Option<Manifest>
    var disk: Manifest
    // The last revision taken from the channel.
    ghost var consumed: nat

    ghost function View(): Worker
      reads this
    {
      Worker(all, eager, pieces, subscriptionBaseline, commits, published, channel, consumed, Batch(latest, marks),
             coveredRevision, persistedCoverage, timerArmed, current, disk)
    }

    /** Publish the stored generation; a full channel is drained into the new event. */
    method PublishEvent()
      requires published + 1 < |commits|
      modifies this`channel, this`published
      ensures View() == Publish(old(View()))
    {
      var event := Event(published, published + 1, commits[published + 1].marks);
      published := published + 1;
      if |channel| < CHANNEL_CAPACITY {
        channel := channel + [event];
        return;
      }
      var merged := CoalesceEvents(channel + [event]);
      channel := [Event(channel[0].base, event.revision, merged)];
    }

    static method CoalesceEvents(events: seq<Event>) returns (merged: Marks)
      ensures merged == UnionOf(events)
    {
      merged := map[];
      var i := 0;
      while i < |events|
        invariant i <= |events| && merged == UnionOf(events[..i])
      {
        assert events[..i + 1][..i] == events[..i];
        merged := Union(merged, events[i].marks);
        i := i + 1;
      }
      assert events[..i] == events;
    }

    /** One component after the other: a replacement drops the keys gathered so far, and keys
        are not added to one. */
    static method GatherMarks(a: Marks, b: Marks) returns (merged: Marks)
      ensures merged == Gather(a, b)
    {
      merged := a;
      var todo := b.Keys;
      while todo != {}
        invariant todo <= b.Keys && merged.Keys == a.Keys + (b.Keys - todo)
        invariant forall c :: c in merged ==>
          merged[c] == if c in b && c !in todo then Gathered(Marked(a, c), b[c]) else a[c]
      {
        var c :| c in todo;
        var mark := Marked(merged, c);
        if b[c].replace {
          mark := Mark(true, {});
        } else if !mark.replace {
          mark := Mark(false, mark.keys + b[c].keys);
        }
        merged := merged[c := mark];
        todo := todo - {c};
      }
      assert forall c :: c in a && c !in b ==> Gathered(Marked(a, c), NO_MARK) == a[c];
    }

    method AccumulateEvent(event: Event) returns (waiting: bool)
      modifies this`latest, this`marks, this`timerArmed
      ensures View() == Accumulate(old(View()), event) && waiting == (event.marks != map[])
    {
      if event.marks == map[] { return false; }
      if event.revision >= latest { latest := event.revision; }
      marks := GatherMarks(marks, event.marks);
      timerArmed := true;
      waiting := true;
    }

    method ObserveNext()
      requires channel != []
      modifies this`channel, this`latest, this`marks, this`timerArmed, this`coveredRevision, this`consumed
      ensures View() == Deliver(old(View()))
    {
      var event := channel[0];
      channel := channel[1..];
      consumed := event.revision;
      var waiting := AccumulateEvent(event);
      if event.revision > coveredRevision { coveredRevision := event.revision; }
    }

    /** One component: all its entries or the named ones are written as the generation has
        them, and then its own file. */
    method SaveComponent(c: Component, mark: Mark, manifest: Manifest, files: set<Piece>, at: map<Piece, nat>)
      returns (newFiles: set<Piece>, newAt: map<Piece, nat>)
      ensures forall p :: p in newFiles <==>
        if p.component == c && p.key.Some? && Takes(manifest, eager, mark, p) then p in Entries(commits, latest) else p in files
      ensures newAt.Keys == at.Keys + set p | p in pieces && p.component == c && Takes(manifest, eager, mark, p)
      ensures forall p :: p in newAt ==>
        newAt[p] == if p.component == c && Takes(manifest, eager, mark, p) then latest else at[p]
    {
      var entries := Entries(commits, latest);
      newFiles, newAt := files, at;
      if !Filed(manifest, c) || mark.replace || (c in eager && mark.keys == {}) {
        newFiles := (set p | p in files && (p.component != c || p.key.None?))
                    + set p | p in entries && p.component == c && p.key.Some?;
        newAt := map p | p in at.Keys + pieces && (p in at || p.component == c) :: if p.component == c then latest else at[p];
        return;
      }
      var todo := mark.keys;
      while todo != {}
        invariant todo <= mark.keys
        invariant forall p :: p in newFiles <==>
          if p.component == c && p.key.Some? && p.key.value in mark.keys - todo then p in entries else p in files
        invariant forall p :: p in newAt <==>
          p in at || (p in pieces && p.component == c && p.key.Some? && p.key.value in mark.keys - todo)
        invariant forall p :: p in newAt ==>
          newAt[p] == if p.component == c && p.key.Some? && p.key.value in mark.keys - todo then latest else at[p]
      {
        var key :| key in todo;
        var p := Piece(c, Some(key));
        newFiles := if p in entries then newFiles + {p} else newFiles - {p};
        if p in pieces || p in newAt { newAt := newAt[p := latest]; }
        todo := todo - {key};
      }
      var own := Piece(c, None);
      if own in pieces || own in newAt { newAt := newAt[own := latest]; }
    }

    /** One dirty component after the other. */
    method SaveComponents(manifest: Manifest, dirty: set<Component>) returns (files: set<Piece>, at: map<Piece, nat>)
      ensures forall p :: p in files <==>
        if p.key.Some? && p.component in dirty && Takes(manifest, eager, Marked(marks, p.component), p)
        then p in Entries(commits, latest) else p in manifest.files
      ensures forall p :: p in at <==>
        p in manifest.at || (p in pieces && p.component in dirty && Takes(manifest, eager, Marked(marks, p.component), p))
      ensures forall p :: p in at ==>
        at[p] == if p.component in dirty && Takes(manifest, eager, Marked(marks, p.component), p) then latest else manifest.at[p]
    {
      files, at := manifest.files, manifest.at;
      var todo := dirty;
      while todo != {}
        invariant todo <= dirty
        invariant forall p :: p in files <==>
          if p.key.Some? && p.component in dirty - todo && Takes(manifest, eager, Marked(marks, p.component), p)
          then p in Entries(commits, latest) else p in manifest.files
        invariant forall p :: p in at <==>
          p in manifest.at || (p in pieces && p.component in dirty - todo && Takes(manifest, eager, Marked(marks, p.component), p))
        invariant forall p :: p in at ==>
          at[p] == if p.component in dirty - todo && Takes(manifest, eager, Marked(marks, p.component), p) then latest else manifest.at[p]
      {
        var c :| c in todo;
        files, at := SaveComponent(c, Marked(marks, c), manifest, files, at);
        todo := todo - {c};
      }
    }

    /** The snapshot writer: pick the manifest to start from, add the components that have no
        file yet, save what is dirty, and replace the manifest. */
    method SaveSnapshot(outcome: WriteOutcome) returns (saved: bool)
      modifies this`current, this`disk
      ensures View() == Save(old(View()), outcome) && saved == Saves(old(View()), outcome)
    {
      if outcome == NotRenamed { return false; }
      var manifest := NOTHING;
      if current.Some? {
        manifest := current.value;
        if latest < manifest.revision { return true; }
      } else if disk.present && latest >= disk.revision {
        manifest := disk;
      }
      ghost var view := View();
      assert manifest == Base(view);
      var files, at := SaveComponents(manifest, marks.Keys + (all - manifest.indexed));
      assert files == Next(view).files && at == Next(view).at;
      disk := Manifest(true, latest, manifest.indexed + all, files, at);
      if outcome == Synced { current := Some(disk); }
      saved := outcome == Synced;
    }

    method FlushPending(outcome: WriteOutcome) returns (reply: Reply)
      modifies this`current, this`disk, this`latest, this`marks, this`timerArmed, this`persistedCoverage
      ensures (View(), reply) == Flush(old(View()), outcome)
    {
      if latest == 0 { return Done; }
      var revision := latest;
      var saved := SaveSnapshot(outcome);
      if !saved { return Failed; }
      latest, marks := 0, map[];
      var coverage := if coveredRevision < revision then coveredRevision else revision;
      if coverage > persistedCoverage { persistedCoverage := coverage; }
      timerArmed := false;
      reply := Done;
    }

    /** One request: drain through the revision, then flush unless it is covered. An event
        from before the subscription joins the batch with every component dirty. */
    method ForceRevision(revision: nat, outcome: WriteOutcome) returns (reply: Reply)
      modifies this
      ensures (View(), reply) == Force(old(View()), revision, outcome)
    {
      if revision == 0 { return Done; }
      if revision <= subscriptionBaseline {
        var own := if revision < |commits| then commits[revision].marks else map[];
        var full := Event(0, revision, map c | c in all :: Marked(own, c));
        var waiting := AccumulateEvent(full);
        if !waiting {
          assert forall c :: c in all ==> c in full.marks;
          return Done;
        }
        assert exists c :: c in full.marks;
      } else {
        while coveredRevision < revision && channel != []
          invariant Drain(View(), revision) == Drain(old(View()), revision)
          decreases |channel|
        {
          ObserveNext();
        }
      }
      if persistedCoverage >= revision { return Done; }
      reply := FlushPending(outcome);
    }
  }
}
