/** Which journals the loaders accept, entry by entry. */
module DocumentAnswers {
  import opened HandoverTypes
  import opened SourceAnswers
  import opened AdmissionAnswers
  import opened TargetAnswers

  // ---- names and digests, letter by letter

  const LETTERS := "abcdefghijklmnopqrstuvwxyz0123456789"

  /** One to sixty-four small letters, digits, hyphens and underscores, starting with a letter
      or a digit. */
  lemma CanonicalExactly(id: string)
    ensures CanonicalId(id) <==>
              0 < |id| < 65 && id[0] in LETTERS && forall i :: 0 <= i < |id| ==> id[i] in LETTERS + "-_"
  {
    assert forall c: char :: IdentifierLetter(c) <==> c in LETTERS;
  }

  lemma DigestExactly(digest: string)
    ensures ValidDigest(digest) <==> |digest| == 64 && forall i :: 0 <= i < 64 ==> digest[i] in "0123456789abcdef"
  {
  }

  /** A directory name that stays one component on every system. */
  lemma ComponentExactly(name: string)
    ensures ValidComponent(name) <==> name !in ["", ".", ".."] && forall i :: 0 <= i < |name| ==> name[i] !in "/\\:\0"
  {
  }

  // ---- source fences

  lemma FencesExactly(fences: Fences)
    ensures AcceptFences(fences) <==>
              forall id :: id in fences ==>
                && fences[id].identity.runtimeId == id && GoodIdentity(fences[id].identity) && GoodPlace(fences[id].directory)
                && (fences[id].stopped ==> 0 < |fences[id].profileId| <= 128)
  {
    forall id | id in fences
      ensures ValidFence(id, fences[id])
              <==> && fences[id].identity.runtimeId == id && GoodIdentity(fences[id].identity) && GoodPlace(fences[id].directory)
                   && (fences[id].stopped ==> 0 < |fences[id].profileId| <= 128)
    {
      IdentityIs(fences[id].identity);
      PlaceIs(fences[id].directory);
    }
  }

  // ---- settings-only bindings

  lemma LocalsExactly(locals: Locals)
    ensures AcceptLocals(locals) <==>
              && (forall id :: id in locals ==>
                    locals[id].identity.runtimeId == id && GoodBinding(locals[id]) && GoodPlace(locals[id].directory))
              && (forall a, b :: a in locals && b in locals && locals[a].directory == locals[b].directory ==> a == b)
  {
    forall id | id in locals ensures ValidLocal(locals[id]) <==> GoodBinding(locals[id]) && GoodPlace(locals[id].directory) {
      BindingIs(locals[id]);
    }
  }

  // ---- archive adoptions

  predicate GoodGeneration(p: TargetProfile) {
    GoodReceipt(p.receipt, p.targetEpoch, p.targetCellId) && p == GenerationOf(p.receipt, p.targetEpoch, p.targetCellId, p.state)
  }

  lemma GenerationIs(p: TargetProfile)
    ensures ValidTarget(p) <==> GoodGeneration(p)
  {
    TargetIs(p.receipt, p.targetEpoch, p.targetCellId, p.state);
    if ValidTarget(p) { assert p == GenerationOf(p.receipt, p.targetEpoch, p.targetCellId, p.state); }
  }

  predicate OwnedBy(p: TargetProfile, id: AccountId) {
    p.receipt.identity.runtimeId == id
  }

  /** Every record is good, under its own operation, and its runtime has a newest one. */
  predicate RecordsGood(a: Adoptions) {
    forall o :: o in a.operations ==>
      && GoodGeneration(a.operations[o]) && a.operations[o].receipt.identity.operationId == o
      && a.operations[o].receipt.identity.runtimeId in a.current
  }

  /** The older record is an earlier generation of the same profile, and its place is retired. */
  predicate Behind(a: Adoptions, older: TargetProfile, newest: TargetProfile, id: AccountId) {
    && older.targetEpoch < newest.targetEpoch && older.targetCellId == newest.targetCellId
    && older.receipt.profileId == newest.receipt.profileId
    && older.receipt.identity.accountId == newest.receipt.identity.accountId
    && older.receipt.identity.tenantId == newest.receipt.identity.tenantId
    && older.directory in a.retired && a.retired[older.directory] == id
  }

  /** Every newest record is its runtime's, leaves the staging place retired, and has all
      other records of the runtime behind it. */
  predicate NewestGood(a: Adoptions) {
    forall id :: id in a.current ==>
      && a.current[id] in a.operations && OwnedBy(a.operations[a.current[id]], id)
      && ["Accounts", id] in a.retired && a.retired[["Accounts", id]] == id
      && forall o :: o in a.operations && OwnedBy(a.operations[o], id) && o != a.current[id] ==>
           Behind(a, a.operations[o], a.operations[a.current[id]], id)
  }

  /** Every retired place is a place of a runtime whose newest generation is elsewhere. */
  ghost predicate RetiredGood(a: Adoptions) {
    forall place :: place in a.retired ==>
      var id := a.retired[place];
      && id in a.current && a.current[id] in a.operations && OwnedBy(a.operations[a.current[id]], id)
      && GoodPlace(place) && place != a.operations[a.current[id]].directory
  }

  lemma RecordsExactly(a: Adoptions)
    ensures RecordsGood(a) <==> forall o :: o in a.operations ==> OperationAccepted(a, o)
  {
    forall o | o in a.operations ensures ValidTarget(a.operations[o]) <==> GoodGeneration(a.operations[o]) {
      GenerationIs(a.operations[o]);
    }
  }

  lemma NewestExactly(a: Adoptions)
    ensures NewestGood(a) <==> forall id :: id in a.current ==> CurrentAccepted(a, id)
  {
  }

  lemma RetiredExactly(a: Adoptions)
    requires RecordsGood(a) && NewestGood(a)
    ensures RetiredGood(a) <==> forall place :: place in a.retired ==> RetirementAccepted(a, place)
  {
    forall place | place in a.retired
      ensures RetirementAccepted(a, place)
              <==> var id := a.retired[place];
                   && id in a.current && a.current[id] in a.operations && OwnedBy(a.operations[a.current[id]], id)
                   && GoodPlace(place) && place != a.operations[a.current[id]].directory
    {
      var id := a.retired[place];
      PlaceIs(place);
      NoBlankOperation(a);
      if id in a.current { IdentityIs(a.operations[a.current[id]].receipt.identity); }
    }
  }

  lemma NoBlankOperation(a: Adoptions)
    requires RecordsGood(a)
    ensures "" !in a.operations
  {
    if "" in a.operations {
      IdentityIs(a.operations[""].receipt.identity);
    }
  }

  /** The adoption loader accepts exactly these journals. */
  lemma AdoptionsExactly(a: Adoptions)
    ensures AcceptAdoptions(a) <==> RecordsGood(a) && NewestGood(a) && RetiredGood(a)
  {
    RecordsExactly(a);
    NewestExactly(a);
    if RecordsGood(a) && NewestGood(a) { RetiredExactly(a); }
  }
}
