/** Runs in which a save is acknowledged although a change up to its revision is not on disk. */
module PersistenceExample {
  import opened Journals
  import opened PersistenceSpec
  import opened PersistenceProofs

  // Movements are all rewritten when an event names none; reports are not.
  const MOVEMENTS: Component := 0
  const REPORTS: Component := 1

  function Entry(c: Component, key: nat): Piece {
    Piece(c, Some(key))
  }

  const ENTRIES := {Entry(MOVEMENTS, 4), Entry(MOVEMENTS, 5), Entry(REPORTS, 7), Entry(REPORTS, 8)}

  const LOADED := Change({}, map[], ENTRIES)

  /** A commit that changes one entry, and what its event says about the component. */
  function Touched(p: Piece, mark: Mark): Change {
    Change({p}, map[p.component := mark], ENTRIES)
  }

  function Moved(key: nat): Change {
    Touched(Entry(MOVEMENTS, key), Mark(false, {key}))
  }

  /** A worker that starts over the manifest that an earlier process left at revision 1. */
  function Started(commits: seq<Change>): Worker
    requires |commits| > 0
  {
    var head := |commits| - 1;
    Worker({MOVEMENTS, REPORTS}, {MOVEMENTS}, {Piece(MOVEMENTS, None), Piece(REPORTS, None)} + ENTRIES,
           head, commits, head, [], head, EMPTY, head, 0, false, None,
           Manifest(true, 1, {MOVEMENTS, REPORTS}, ENTRIES, map[]))
  }

  /** The answer covers the change of p in commit c, the manifest on disk is the requested
      generation, and p has its old file. */
  ghost predicate Lost(w: Worker, revision: nat, c: nat, p: Piece) {
    var (d, reply) := Force(w, revision, Synced);
    ChangedIn(w.commits, c, p) && c <= revision && reply == Done && d.disk.revision >= revision && At(d.disk, p) == 0
  }

  lemma StartedIsInitial(commits: seq<Change>)
    requires |commits| > 0 && forall c :: 0 <= c < |commits| ==> Declared(Started(commits), commits[c])
    ensures Initial(Started(commits)) && Started(commits).baseline == |commits| - 1
  {
  }

  /** How a change is lost: the request flushes, and the batch does not ask for the piece. */
  lemma LeftBehind(w: Worker, ready: Worker, revision: nat, c: nat, p: Piece)
    requires ready == Ready(w, revision) && revision > 0 && w.all != {} && ChangedIn(w.commits, c, p) && c <= revision
    requires ready.known == None && ready.persisted == 0 && ready.disk.present && p in ready.disk.files && ready.disk.at == map[]
    requires ready.disk.revision <= revision == ready.pending.latest && p.key.Some?
    requires var mark := Marked(ready.pending.marks, p.component);
             !mark.replace && p.key.value !in mark.keys && (mark.keys == {} ==> p.component !in ready.eager)
    ensures Lost(w, revision, c, p)
  {
    UnnamedIsLeft(ready, p);
    assert Force(w, revision, Synced) == Flush(ready, Synced);
  }

  // ---- requests at or below the baseline

  function TwoMoves(): Worker {
    Started([LOADED, LOADED, Moved(4), Moved(5)])
  }

  /** Two movements change before the subscription. The request for the second is answered,
      and the manifest that is kept still has the first one's old file. */
  lemma DefensiveRequestCanBePartial()
    ensures Initial(TwoMoves()) && TwoMoves().baseline == 3 && Lost(TwoMoves(), 3, 2, Entry(MOVEMENTS, 4))
  {
    StartedIsInitial([LOADED, LOADED, Moved(4), Moved(5)]);
    var ready := Ready(TwoMoves(), 3);
    assert MOVEMENTS in EarlierEvent(TwoMoves(), 3).marks;
    assert ready.pending.marks[MOVEMENTS] == Mark(false, {5});
    LeftBehind(TwoMoves(), ready, 3, 2, Entry(MOVEMENTS, 4));
  }

  function OneMove(): Worker {
    Started([LOADED, LOADED, Moved(4)])
  }

  /** Another movement changes at revision 3 and is flushed by the timer. */
  function LaterFlush(): seq<Step> {
    [Stored(Moved(5)), Published, Delivered, Timer(Synced)]
  }

  /** The movement of revision 2 is not in the later batch. */
  lemma LaterIsSaved(w: Worker)
    requires w == Publish(Store(OneMove(), Moved(5)))
    ensures w.queue != [] && Deliver(w).armed
    ensures var d := Flush(Deliver(w), Synced).0;
            d.persisted == 3 && d.baseline == 2 && d.commits == w.commits && d.disk.revision == 3 && At(d.disk, Entry(MOVEMENTS, 4)) == 0
  {
    assert w.queue == [Event(2, 3, Moved(5).marks)];
    var d := Deliver(w);
    assert MOVEMENTS in w.queue[0].marks;
    assert d.pending.marks[MOVEMENTS] == Mark(false, {5}) && d.pending.latest == 3;
    assert Entry(MOVEMENTS, 4) in d.disk.files;
    UnnamedIsLeft(d, Entry(MOVEMENTS, 4));
  }

  lemma LaterRun() returns (d: Worker)
    ensures Allowed(OneMove(), LaterFlush()) && d == Run(OneMove(), LaterFlush())
    ensures d.persisted == 3 && d.baseline == 2 && d.commits == [LOADED, LOADED, Moved(4), Moved(5)]
    ensures d.disk.revision == 3 && At(d.disk, Entry(MOVEMENTS, 4)) == 0
    ensures d.all == OneMove().all
  {
    var a := Store(OneMove(), Moved(5));
    var b := Publish(a);
    LaterIsSaved(b);
    var c := Deliver(b);
    d := Flush(c, Synced).0;
    RunAlong([OneMove(), a, b, c, d], LaterFlush());
  }

  /** The later flush makes the request for revision 2 look covered: it is answered without
      a write, and the movement of revision 2 was never saved. */
  lemma DefensiveRequestCanBeEmpty()
    ensures Initial(OneMove()) && OneMove().baseline == 2 && Allowed(OneMove(), LaterFlush())
    ensures var d := Run(OneMove(), LaterFlush()); Force(d, 2, Synced).0.disk == d.disk && Lost(d, 2, 2, Entry(MOVEMENTS, 4))
  {
    StartedIsInitial([LOADED, LOADED, Moved(4)]);
    var d := LaterRun();
    assert ChangedIn(d.commits, 2, Entry(MOVEMENTS, 4));
  }

  // ---- commits that do not name their changes

  /** No movement is named, so all of them would be rewritten. */
  function BroadMove(): Change {
    Touched(Entry(MOVEMENTS, 4), NO_MARK)
  }

  function BroadThenKeyed(): seq<Step> {
    [Stored(BroadMove()), Published, Stored(Moved(5)), Published]
  }

  lemma BroadBatch(w: Worker)
    requires w == Started([LOADED, LOADED]).(commits := [LOADED, LOADED, BroadMove(), Moved(5)], published := 3,
                                            queue := [Event(1, 2, BroadMove().marks), Event(2, 3, Moved(5).marks)])
    ensures Lost(w, 3, 2, Entry(MOVEMENTS, 4))
  {
    var ready := Ready(w, 3);
    assert MOVEMENTS in w.queue[0].marks && MOVEMENTS in w.queue[1].marks;
    DrainTwo(w, w.queue[0], w.queue[1]);
    assert ready.pending.marks[MOVEMENTS] == Mark(false, {5});
    LeftBehind(w, ready, 3, 2, Entry(MOVEMENTS, 4));
  }

  /** The next commit in the batch names its own movement, and only that one is written. */
  lemma BroadMoveCanBeLost()
    ensures var w := Started([LOADED, LOADED]);
            && Initial(w) && w.baseline == 1 && Allowed(w, BroadThenKeyed())
            && Lost(Run(w, BroadThenKeyed()), 3, 2, Entry(MOVEMENTS, 4))
  {
    var w := Started([LOADED, LOADED]);
    StartedIsInitial([LOADED, LOADED]);
    var a := Store(w, BroadMove());
    var b := Publish(a);
    var c := Store(b, Moved(5));
    var d := Publish(c);
    RunAlong([w, a, b, c, d], BroadThenKeyed());
    assert d.commits == [LOADED, LOADED, BroadMove(), Moved(5)];
    assert d.queue == [Event(1, 2, BroadMove().marks), Event(2, 3, Moved(5).marks)];
    BroadBatch(d);
  }

  /** Reports are not rewritten when none is named. */
  function BroadReport(): Change {
    Touched(Entry(REPORTS, 7), NO_MARK)
  }

  lemma BroadReportBatch(w: Worker)
    requires w == Started([LOADED, LOADED]).(commits := [LOADED, LOADED, BroadReport()], published := 2,
                                            queue := [Event(1, 2, BroadReport().marks)])
    ensures Lost(w, 2, 2, Entry(REPORTS, 7))
  {
    var ready := Ready(w, 2);
    assert REPORTS in w.queue[0].marks;
    assert Drain(Deliver(w), 2) == Deliver(w);
    assert ready.pending.marks[REPORTS] == NO_MARK;
    LeftBehind(w, ready, 2, 2, Entry(REPORTS, 7));
  }

  /** The commit is alone, and its report is not written. */
  lemma BroadReportIsLost()
    ensures var w, steps := Started([LOADED, LOADED]), [Stored(BroadReport()), Published];
            && Initial(w) && w.baseline == 1 && Allowed(w, steps)
            && Lost(Run(w, steps), 2, 2, Entry(REPORTS, 7))
  {
    var w := Started([LOADED, LOADED]);
    StartedIsInitial([LOADED, LOADED]);
    var a := Store(w, BroadReport());
    RunAlong([w, a, Publish(a)], [Stored(BroadReport()), Published]);
    BroadReportBatch(Publish(a));
  }
}
