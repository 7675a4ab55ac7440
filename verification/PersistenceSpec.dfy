/** The state persistence worker: ordered change events, batching, the snapshot writer and
    the meaning of an acknowledged save. A generation's revision is its index in `commits`. */
module PersistenceSpec {
  import opened Journals

  type Component = nat

  /** One saved file: a component's own file (its index, or all of it when it has no keyed
      entries), or one entry of a keyed component. */
  datatype Piece = Piece(component: Component, key: Option<nat>)

  /** What an event says about the entries of one dirty component. */
  datatype Mark = Mark(replace: bool, keys: set<nat>)

  const NO_MARK := Mark(false, {})

  type Marks = map<Component, Mark>

  const CHANNEL_CAPACITY := 128

  /** One committed generation: the pieces that differ from the one before, what its event
      says about them, and the keyed entries it has. */
  datatype Change = Change(changed: set<Piece>, marks: Marks, entries: set<Piece>)

  /** All changes after `base` up to `revision`. */
  datatype Event = Event(base: nat, revision: nat, marks: Marks)

  /** What waits for the next flush: the newest generation and what to take from it. */
  datatype Batch = Batch(latest: nat, marks: Marks)

  const EMPTY := Batch(0, map[])

  /** A manifest: the components and the entries that have a file, and for each piece the
      generation whose value is saved. A piece this process has not saved is at 0. */
  datatype Manifest = Manifest(present: bool, revision: nat, indexed: set<Component>, files: set<Piece>, at: map<Piece, nat>)

  const NOTHING := Manifest(false, 0, {}, {}, map[])

  /** `eager` are the keyed components whose entries are all rewritten when an event names
      none; `known` is the manifest the writer last saved and synced. */
  datatype Worker = Worker(
    all: set<Component>, eager: set<Component>, pieces: set<Piece>,
    baseline: nat, commits: seq<Change>, published: nat, queue: seq<Event>, consumed: nat,
    pending: Batch, covered: nat, persisted: nat, armed: bool, known: Option<Manifest>, disk: Manifest)

  datatype Reply = Done | Failed

  function Head(w: Worker): nat {
    if |w.commits| == 0 then 0 else |w.commits| - 1
  }

  function At(m: Manifest, p: Piece): nat {
    if p in m.at then m.at[p] else 0
  }

  /** What a power loss cannot take back: the manifest last synced by this process. */
  function Secured(known: Option<Manifest>): Manifest {
    if known.Some? then known.value else NOTHING
  }

  function Marked(marks: Marks, c: Component): Mark {
    if c in marks then marks[c] else NO_MARK
  }

  /** The event itself asks for this piece to be written. */
  predicate Names(marks: Marks, p: Piece) {
    && p.component in marks
    && (p.key.None? || marks[p.component].replace || p.key.value in marks[p.component].keys)
  }

  // ---- the store's side

  function Union(a: Marks, b: Marks): Marks {
    map c | c in a.Keys + b.Keys ::
      Mark(Marked(a, c).replace || Marked(b, c).replace, Marked(a, c).keys + Marked(b, c).keys)
  }

  function UnionOf(events: seq<Event>): Marks {
    if events == [] then map[] else Union(UnionOf(events[..|events| - 1]), events[|events| - 1].marks)
  }

  /** A full channel is drained and everything in it folded into the new event. */
  function Enqueue(queue: seq<Event>, event: Event): seq<Event> {
    if |queue| < CHANNEL_CAPACITY then queue + [event]
    else [Event(queue[0].base, event.revision, UnionOf(queue + [event]))]
  }

  /** The new generation is stored first and then published. */
  function Store(w: Worker, change: Change): Worker {
    w.(commits := w.commits + [change])
  }

  function Publish(w: Worker): Worker
    requires w.published + 1 < |w.commits|
  {
    w.(published := w.published + 1,
       queue := Enqueue(w.queue, Event(w.published, w.published + 1, w.commits[w.published + 1].marks)))
  }

  // ---- the worker's side

  function Gathered(a: Mark, b: Mark): Mark {
    if b.replace then Mark(true, {}) else if a.replace then a else Mark(false, a.keys + b.keys)
  }

  function Gather(a: Marks, b: Marks): Marks {
    map c | c in a.Keys + b.Keys :: Gathered(Marked(a, c), Marked(b, c))
  }

  function Accumulate(w: Worker, event: Event): Worker {
    if event.marks == map[] then w
    else
      w.(pending := Batch(if event.revision >= w.pending.latest then event.revision else w.pending.latest,
                          Gather(w.pending.marks, event.marks)),
         armed := true)
  }

  function Observe(w: Worker, event: Event): Worker {
    var accumulated := Accumulate(w, event);
    accumulated.(covered := if event.revision > w.covered then event.revision else w.covered)
  }

  function Deliver(w: Worker): Worker
    requires w.queue != []
  {
    Observe(w, w.queue[0]).(queue := w.queue[1..], consumed := w.queue[0].revision)
  }

  // ---- the snapshot writer

  /** The manifest a save starts from: the writer's own, else the one on disk unless it
      outranks this process and is set aside. */
  function Base(w: Worker): Manifest {
    if w.known.Some? then w.known.value
    else if w.disk.present && w.pending.latest >= w.disk.revision then w.disk
    else NOTHING
  }

  /** A generation older than the writer's manifest is not written. */
  predicate Skips(w: Worker) {
    w.known.Some? && w.pending.latest < w.known.value.revision
  }

  predicate Filed(m: Manifest, c: Component) {
    exists p :: p in m.files && p.component == c
  }

  /** All entries of a component are written. */
  predicate Whole(m: Manifest, eager: set<Component>, mark: Mark, c: Component) {
    !Filed(m, c) || mark.replace || (c in eager && mark.keys == {})
  }

  /** Saving a component writes this piece of it: its own file always, an entry when all
      are written or when it is named. */
  predicate Takes(m: Manifest, eager: set<Component>, mark: Mark, p: Piece) {
    p.key.None? || Whole(m, eager, mark, p.component) || p.key.value in mark.keys
  }

  /** A component is saved when it is dirty or has no file yet. */
  function Dirty(w: Worker): set<Component> {
    w.pending.marks.Keys + (w.all - Base(w).indexed)
  }

  predicate Writes(w: Worker, p: Piece) {
    p.component in Dirty(w) && Takes(Base(w), w.eager, Marked(w.pending.marks, p.component), p)
  }

  /** The entries of the generation that an event carries. */
  function Entries(commits: seq<Change>, revision: nat): set<Piece> {
    if revision < |commits| then commits[revision].entries else {}
  }

  function Next(w: Worker): Manifest {
    var m, entries := Base(w), Entries(w.commits, w.pending.latest);
    Manifest(true, w.pending.latest, m.indexed + w.all,
             set p | p in m.files + entries && (if p.key.Some? && Writes(w, p) then p in entries else p in m.files),
             map p | p in m.at.Keys + w.pieces && (p in m.at || Writes(w, p)) ::
               if Writes(w, p) then w.pending.latest else m.at[p])
  }

  function Save(w: Worker, outcome: WriteOutcome): Worker {
    if outcome == NotRenamed || Skips(w) then w
    else if outcome == RenamedUnsynced then w.(disk := Next(w))
    else w.(disk := Next(w), known := Some(Next(w)))
  }

  predicate Saves(w: Worker, outcome: WriteOutcome) {
    outcome == Synced || (outcome == RenamedUnsynced && Skips(w))
  }

  function Flush(w: Worker, outcome: WriteOutcome): (Worker, Reply) {
    if w.pending.latest == 0 then (w, Done)
    else if !Saves(w, outcome) then (Save(w, outcome), Failed)
    else
      var coverage := if w.covered < w.pending.latest then w.covered else w.pending.latest;
      (Save(w, outcome).(pending := EMPTY, armed := false, persisted := if coverage > w.persisted then coverage else w.persisted),
       Done)
  }

  // ---- save requests

  /** Take events until the requested revision is covered. */
  function Drain(w: Worker, revision: nat): Worker
    decreases |w.queue|
  {
    if w.covered >= revision || w.queue == [] then w else Drain(Deliver(w), revision)
  }

  /** An event from before the subscription: every component is dirty, and the entries are
      still only the ones its own commit named. */
  function EarlierEvent(w: Worker, revision: nat): Event {
    var marks := if revision < |w.commits| then w.commits[revision].marks else map[];
    Event(0, revision, map c | c in w.all :: Marked(marks, c))
  }

  /** The worker when a request is about to be answered. */
  function Ready(w: Worker, revision: nat): Worker {
    if revision <= w.baseline then Accumulate(w, EarlierEvent(w, revision)) else Drain(w, revision)
  }

  function Answer(ready: Worker, revision: nat, outcome: WriteOutcome): (Worker, Reply) {
    if ready.persisted >= revision then (ready, Done) else Flush(ready, outcome)
  }

  /** A save request for one published revision. */
  function Force(w: Worker, revision: nat, outcome: WriteOutcome): (Worker, Reply) {
    if revision == 0 || (revision <= w.baseline && w.all == {}) then (w, Done)
    else Answer(Ready(w, revision), revision, outcome)
  }

  // ---- runs

  datatype Step =
    | Stored(change: Change)
    | Published
    | Delivered
    | Timer(outcome: WriteOutcome)
    | Requested(revision: nat, outcome: WriteOutcome)

  /** A commit declares every component it changes. */
  predicate Declared(w: Worker, change: Change) {
    && change.changed <= w.pieces && change.marks.Keys <= w.all
    && forall p :: p in change.changed ==> p.component in change.marks
  }

  predicate Enabled(w: Worker, s: Step) {
    match s
    case Stored(change) => w.published == Head(w) && Declared(w, change)
    case Published => w.published < Head(w)
    case Delivered => w.queue != []
    case Timer(_) => w.armed
    case Requested(revision, _) => revision <= w.published
  }

  function Apply(w: Worker, s: Step): Worker
    requires Enabled(w, s)
  {
    match s
    case Stored(change) => Store(w, change)
    case Published => Publish(w)
    case Delivered => Deliver(w)
    case Timer(outcome) => Flush(w, outcome).0
    case Requested(revision, outcome) => Force(w, revision, outcome).0
  }

  predicate Allowed(w: Worker, steps: seq<Step>)
    decreases |steps|
  {
    steps != [] ==> Enabled(w, steps[0]) && Allowed(Apply(w, steps[0]), steps[1..])
  }

  function Run(w: Worker, steps: seq<Step>): Worker
    requires Allowed(w, steps)
    decreases |steps|
  {
    if steps == [] then w else Run(Apply(w, steps[0]), steps[1..])
  }

  predicate ChangedIn(commits: seq<Change>, c: nat, p: Piece) {
    c < |commits| && p in commits[c].changed
  }

  predicate NamedIn(commits: seq<Change>, c: nat, p: Piece) {
    c < |commits| && Names(commits[c].marks, p)
  }

  /** The worker after its subscription. Commits between subscribing and reading the
      baseline are queued; the last of them may not be published yet. Nothing has been
      saved by this process. */
  ghost predicate Initial(w: Worker) {
    && |w.commits| > 0 && (forall c :: 0 <= c < |w.commits| ==> Declared(w, w.commits[c]))
    && (forall c :: c in w.all ==> Piece(c, None) in w.pieces)
    && w.baseline == w.covered == Head(w) && w.consumed <= w.published <= Head(w) <= w.published + 1
    && Queued(w) && w.pending == EMPTY && w.persisted == 0 && !w.armed && w.known.None? && w.disk.at == map[]
  }

  /** The event names every piece named in its span. */
  ghost predicate Spans(commits: seq<Change>, event: Event) {
    forall c, p | event.base < c <= event.revision && NamedIn(commits, c, p) :: Names(event.marks, p)
  }

  /** The queue continues where delivery stopped, without gaps, up to the newest published
      commit, and each event names what its span changed. */
  ghost predicate QueueCovers(commits: seq<Change>, queue: seq<Event>, consumed: nat, published: nat) {
    && published < |commits|
    && (if queue == [] then consumed == published
        else queue[0].base == consumed && queue[|queue| - 1].revision == published)
    && (forall i :: 0 <= i < |queue| ==> queue[i].base < queue[i].revision <= published)
    && (forall i :: 0 <= i < |queue| - 1 ==> queue[i].revision == queue[i + 1].base)
    && (forall i :: 0 <= i < |queue| ==> Spans(commits, queue[i]))
  }

  ghost predicate Queued(w: Worker) {
    QueueCovers(w.commits, w.queue, w.consumed, w.published)
  }
}
