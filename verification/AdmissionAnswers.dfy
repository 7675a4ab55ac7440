/** Who is admitted to run where, and which settings-only bindings are given out. */
module AdmissionAnswers {
  import opened Journals
  import opened HandoverTypes
  import opened CellSpec
  import opened CellProjection
  import opened Capacity
  import opened SourceAnswers

  // ---- capacity

  /** Live here, or promised a slot by a journal: a binding that is reserved or may run, or
      an import that has not run and departed. */
  predicate HoldsSlot(c: Cell, id: AccountId) {
    var current := CurrentProfile(c.adoptions, id);
    || id in c.accounts || id in c.pending || id in c.stopping
    || (id in c.locals && (c.locals[id].state == LocalReserved || RunsBound(c, id)))
    || (id !in c.locals && id in c.adoptions.current && (current.Some? && current.value.state == Active ==> RunsImported(c, id)))
  }

  function Others(c: Cell, id: AccountId): set<AccountId> {
    set other | other in c.accounts.Keys + c.pending.Keys + c.stopping.Keys + c.locals.Keys + c.adoptions.current.Keys
                && other != id && HoldsSlot(c, other)
  }

  lemma OthersAre(c: Cell, id: AccountId)
    ensures Others(c, id) == Occupied(c) - {id}
  {
    forall other | other in Occupied(c) - {id} ensures other in Others(c, id) { RunsExactly(c, other); }
    forall other | other in Others(c, id) ensures other in Occupied(c) - {id} { RunsExactly(c, other); }
  }

  predicate Room(c: Cell, id: AccountId) {
    c.maxAccounts == 0 || |Others(c, id)| < c.maxAccounts
  }

  /** A runtime that is not live has room exactly when there is no limit or fewer others hold
      a slot than there are. */
  lemma RoomExactly(c: Cell, id: AccountId)
    requires DirectoriesOwned(c) && !IsLive(c, id)
    ensures HasCapacity(c, id) <==> Room(c, id)
  {
    OthersAre(c, id);
    CountOf(c, id);
  }

  // ---- which directory, and for which assignment

  predicate Overlap(a: Path, b: Path) {
    a <= b || b <= a
  }

  /** Where the runtime's profile is: its binding, else its import, else its player, else its
      own staging place. */
  lemma DirectoryExactly(c: Cell, id: AccountId)
    ensures var (place, current) := (AccountDirectory(c, id), CurrentProfile(c.adoptions, id));
            && (id in c.locals ==> place == c.locals[id].directory)
            && (id !in c.locals && current.Some? ==> place == current.value.directory)
            && (id !in c.locals && current.None? && id in c.playerBindings && c.playerBindings[id] != "" ==>
                  place == ["Players", c.playerBindings[id]])
            && (id !in c.locals && current.None? && (id in c.playerBindings ==> c.playerBindings[id] == "") ==>
                  place == ["Accounts", id])
  {
  }

  /** No handover journal keeps the runtime out of this place. */
  predicate OpenTo(c: Cell, id: AccountId, place: Path) {
    var current := CurrentProfile(c.adoptions, id);
    if id in c.locals then RunsBound(c, id) && place == c.locals[id].directory
    else
      && (forall owner :: owner in c.locals ==> !Overlap(c.locals[owner].directory, place))
      && (forall retired :: retired in c.adoptions.retired ==> !Overlap(retired, place))
      && (forall owner :: owner in c.fences ==> !Overlap(c.fences[owner].directory, place))
      && (forall o :: o in c.adoptions.operations && Overlap(c.adoptions.operations[o].directory, place) ==>
            current == Some(c.adoptions.operations[o]))
      && (current.Some? ==> RunsImported(c, id) && place == current.value.directory)
      && (id in c.fences ==> RunsImported(c, id))
  }

  lemma OpenExactly(c: Cell, id: AccountId, place: Path)
    ensures !ProfileFenced(c, id, place) <==> OpenTo(c, id, place)
  {
    RunsExactly(c, id);
  }

  /** The assignment is this placement, at its configuration or a later one. */
  predicate Places(a: Assignment, id: AccountId, tenantId: string, epoch: nat, revision: nat, digest: string) {
    && a.runtimeId == id && a.tenantId == tenantId && a.placementEpoch == epoch
    && (a.revision > revision || (a.revision == revision && a.digest == digest))
  }

  predicate RightlyAssigned(c: Cell, id: AccountId, assignment: Option<Assignment>, readable: bool) {
    var current := CurrentProfile(c.adoptions, id);
    if id in c.locals then
      var b := c.locals[id];
      && RunsBound(c, id) && readable && c.profileId(b.directory) == b.profileId && assignment.Some?
      && Places(assignment.value, id, b.identity.tenantId, b.targetEpoch, b.identity.configurationRevision, b.identity.configurationDigest)
    else if current.Some? then
      var (p, i) := (current.value, current.value.receipt.identity);
      && RunsImported(c, id) && assignment.Some?
      && Places(assignment.value, id, i.tenantId, p.targetEpoch, i.configurationRevision, i.configurationDigest)
    else true
  }

  lemma AssignedExactly(c: Cell, id: AccountId, assignment: Option<Assignment>, readable: bool)
    ensures AssignmentAccepted(c, id, assignment, readable) <==> RightlyAssigned(c, id, assignment, readable)
  {
    RunsExactly(c, id);
  }

  /** A runtime is admitted exactly when its assignment places it here, no handover keeps it
      out, an imported profile is the one that was received, it is not here already, there is
      room, and nobody is in that directory. It then holds the directory. */
  lemma AdmittedExactly(c: Cell, id: AccountId, place: Path, assignment: Option<Assignment>, readable: bool)
    requires DirectoriesOwned(c)
    ensures var d, current := BeginAdd(c, id, place, assignment, readable), CurrentProfile(c.adoptions, id);
            && (d != c <==>
                  && CanonicalId(id) && RightlyAssigned(c, id, assignment, readable) && OpenTo(c, id, place)
                  && (current.Some? ==> readable && c.profileId(place) == current.value.receipt.profileId)
                  && !c.closed && id !in c.accounts && id !in c.pending && id !in c.stopping
                  && Room(c, id) && place !in c.dataDirs)
            && (d != c ==> d == c.(pending := c.pending[id := place], dataDirs := c.dataDirs[place := id]))
  {
    AssignedExactly(c, id, assignment, readable);
    OpenExactly(c, id, place);
    if !IsLive(c, id) { RoomExactly(c, id); }
    if CanAdd(c, id, place, assignment, readable) {
      assert place in BeginAdd(c, id, place, assignment, readable).dataDirs;
    }
  }

  /** A player is bound exactly once, to a runtime that no handover has touched. */
  lemma BoundExactly(c: Cell, id: AccountId, key: string)
    ensures var d := BindPlayer(c, id, key);
            && (d != c <==>
                  && ValidComponent(key) && id !in c.playerBindings && id !in c.locals
                  && CurrentProfile(c.adoptions, id).None? && OpenTo(c, id, ["Players", key]) && OpenTo(c, id, ["Accounts", id]))
            && (d != c ==> d == c.(playerBindings := c.playerBindings[id := key]))
  {
    OpenExactly(c, id, ["Players", key]);
    OpenExactly(c, id, ["Accounts", id]);
    if CanBind(c, id, key) { assert id in BindPlayer(c, id, key).playerBindings; }
  }

  // ---- settings-only bindings

  /** What the runtime was here before has stopped, at an earlier epoch, for the same owner. */
  predicate LeftBefore(c: Cell, i: Identity) {
    var id, current := i.runtimeId, CurrentProfile(c.adoptions, i.runtimeId);
    && (id in c.fences ==>
          var f := c.fences[id];
          f.stopped && f.identity.sourceEpoch < i.sourceEpoch && (f.identity.accountId, f.identity.tenantId) == (i.accountId, i.tenantId))
    && (id in c.locals ==>
          var b := c.locals[id];
          && b.state == LocalActive && b.targetEpoch < i.sourceEpoch && LeftAt(c, id, b.targetEpoch)
          && (b.identity.accountId, b.identity.tenantId) == (i.accountId, i.tenantId))
    && (current.Some? ==>
          var p := current.value;
          && p.state == Active && p.targetEpoch < i.sourceEpoch && LeftAt(c, id, p.targetEpoch)
          && (p.receipt.identity.accountId, p.receipt.identity.tenantId) == (i.accountId, i.tenantId))
  }

  /** A profile that is known here is still there; only a new runtime may get a new one. */
  predicate ProfileIsThere(c: Cell, id: AccountId, place: Path, readable: bool) {
    var current := CurrentProfile(c.adoptions, id);
    var known := if id in c.locals then Some(c.locals[id].profileId)
                 else if current.Some? then Some(current.value.receipt.profileId)
                 else if id in c.fences then Some(c.fences[id].profileId) else None;
    && (known.Some? ==> readable && c.profileId(place) == known.value)
    && (id in c.playerBindings && c.playerBindings[id] != "" && known.None? ==> readable)
  }

  predicate MayBind(c: Cell, i: Identity, readable: bool, leased: bool) {
    var id, place := i.runtimeId, AccountDirectory(c, i.runtimeId);
    && LeftBefore(c, i) && ProfileIsThere(c, id, place, readable) && leased
    && id !in c.accounts && id !in c.pending && id !in c.stopping && Room(c, id)
    && NobodyIn(c, id, place)
  }

  /** No live runtime is in, under or around the place, and no other binding is there. */
  predicate NobodyIn(c: Cell, id: AccountId, place: Path) {
    && (forall live :: live in c.dataDirs ==> !Overlap(live, place))
    && (forall owner :: owner in c.locals && c.locals[owner].directory == place ==> owner == id)
  }

  lemma NobodyExactly(c: Cell, id: AccountId, place: Path)
    ensures LocalPlaceFree(c, id, place) <==> NobodyIn(c, id, place)
  {
  }

  predicate RepeatsBinding(c: Cell, i: Identity) {
    i.runtimeId in c.locals && c.locals[i.runtimeId].identity == i && c.locals[i.runtimeId].targetCellId == c.cellId
  }

  predicate GoodBinding(b: LocalBinding) {
    && GoodIdentity(b.identity) && CanonicalId(b.targetCellId) && b.targetCellId != b.identity.sourceCellId
    && b.targetEpoch == b.identity.sourceEpoch + 1 <= 0x7FFF_FFFF_FFFF_FFFF && 1 <= |b.profileId| <= 128
  }

  lemma BindingIs(b: LocalBinding)
    ensures ValidLocal(b) <==> GoodBinding(b) && GoodPlace(b.directory)
  {
    IdentityIs(b.identity);
    PlaceIs(b.directory);
  }

  lemma LeftExactly(c: Cell, i: Identity)
    ensures PreviousAllowsLocal(c, i) <==> LeftBefore(c, i)
  {
  }

  lemma ThereExactly(c: Cell, id: AccountId, place: Path, readable: bool)
    ensures KnownIdentity(c, id, place, readable) <==> ProfileIsThere(c, id, place, readable)
  {
  }

  lemma MayBindExactly(c: Cell, i: Identity, readable: bool, leased: bool)
    requires DirectoriesOwned(c)
    ensures CanReserveLocal(c, i, readable) && leased <==> MayBind(c, i, readable, leased)
  {
    var id := i.runtimeId;
    LeftExactly(c, i);
    ThereExactly(c, id, AccountDirectory(c, id), readable);
    NobodyExactly(c, id, AccountDirectory(c, id));
    if !IsLive(c, id) { RoomExactly(c, id); }
  }

  lemma SavedBinding(c: Cell, id: AccountId, b: LocalBinding, outcome: WriteOutcome)
    requires b.identity.runtimeId == id
    ensures var (d, saved) := SaveLocal(c, id, b, outcome);
            var good := GoodBinding(b) && GoodPlace(b.directory);
            && saved == (if good && outcome == Synced then Some(b) else None) && (!good ==> d == c)
            && (good ==> d == c.(locals := c.locals[id := b], localDisk := Write(c.localDisk, d.locals, outcome)))
  {
    BindingIs(b);
  }

  /** The binding that a request asks for. */
  function NewBinding(c: Cell, i: Identity): LocalBinding {
    var place := AccountDirectory(c, i.runtimeId);
    LocalBinding(i, c.cellId, i.sourceEpoch + 1, place, c.profileId(place), LocalReserved)
  }

  lemma StagingIsPlace(id: AccountId)
    requires CanonicalId(id)
    ensures ValidComponent(id)
  {
  }

  lemma RequestIs(c: Cell, i: Identity)
    ensures ValidFence(i.runtimeId, Fence(i, StagingDirectory(i.runtimeId), "", false)) <==> GoodIdentity(i)
  {
    IdentityIs(i);
    if CanonicalId(i.runtimeId) { StagingIsPlace(i.runtimeId); }
  }

  /** A good request from another cell repeats the binding reserved for it, or may be bound. */
  predicate BindingAllowed(c: Cell, i: Identity, readable: bool, leased: bool) {
    && c.cellId != i.sourceCellId && GoodIdentity(i) && !c.closed
    && (if RepeatsBinding(c, i) then c.locals[i.runtimeId].state == LocalReserved else MayBind(c, i, readable, leased))
  }

  function BindingFor(c: Cell, i: Identity): LocalBinding {
    if RepeatsBinding(c, i) then c.locals[i.runtimeId] else NewBinding(c, i)
  }

  lemma BindingToReserve(c: Cell, i: Identity, readable: bool, leased: bool)
    requires DirectoriesOwned(c)
    ensures LocalToReserve(c, i, readable, leased)
            == if BindingAllowed(c, i, readable, leased) then Some(BindingFor(c, i)) else None
  {
    RequestIs(c, i);
    MayBindExactly(c, i, readable, leased);
  }

  /** A reservation is answered exactly for a request that is allowed, with the binding held
      for it or a new one for the place and the profile that are there, when its save is
      synced. It stands in memory even when its save fails. */
  lemma ReservedExactly(c: Cell, i: Identity, readable: bool, leased: bool, outcome: WriteOutcome)
    requires DirectoriesOwned(c)
    ensures var (d, saved) := ReserveLocal(c, i, readable, leased, outcome);
            var binding := BindingFor(c, i);
            var allowed := BindingAllowed(c, i, readable, leased) && GoodBinding(binding) && GoodPlace(binding.directory);
            && saved == (if allowed && outcome == Synced then Some(binding) else None) && (!allowed ==> d == c)
            && (allowed ==>
                  d == c.(locals := c.locals[i.runtimeId := binding], localDisk := Write(c.localDisk, d.locals, outcome)))
  {
    BindingToReserve(c, i, readable, leased);
    if BindingAllowed(c, i, readable, leased) {
      assert BindingFor(c, i).identity == i;
      SavedBinding(c, i.runtimeId, BindingFor(c, i), outcome);
    }
  }

  /** A binding is activated exactly for the very reservation that is held, while no fence
      has reached its epoch and its profile is still there; in memory even when its save
      fails. */
  lemma BindingActivatedExactly(c: Cell, e: LocalBinding, readable: bool, outcome: WriteOutcome)
    ensures var (d, saved) := ActivateLocal(c, e, readable, outcome);
            var id, active := e.identity.runtimeId, e.(state := LocalActive);
            var allowed :=
              && GoodBinding(e) && GoodPlace(e.directory) && e.targetCellId == c.cellId && e.state == LocalReserved && !c.closed
              && id in c.locals && (c.locals[id] == e || c.locals[id] == active)
              && !LeftAt(c, id, e.targetEpoch) && readable && c.profileId(e.directory) == e.profileId;
            && saved == (if allowed && outcome == Synced then Some(active) else None) && (!allowed ==> d == c)
            && (allowed ==> d == c.(locals := c.locals[id := active], localDisk := Write(c.localDisk, d.locals, outcome)))
  {
    BindingIs(e);
    BindingIs(e.(state := LocalActive));
    var id := e.identity.runtimeId;
    if CanActivateLocal(c, e, readable) { SavedBinding(c, id, c.locals[id].(state := LocalActive), outcome); }
  }
}
