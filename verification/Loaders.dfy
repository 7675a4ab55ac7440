/** The checks that run over each journal when a cell starts. */
module Loaders {
  import opened Journals
  import opened HandoverTypes

  /** The fence loader's loop. */
  method LoadFences(document: Fences) returns (loaded: Option<Fences>)
    ensures loaded == if AcceptFences(document) then Some(document) else None
  {
    var rest := document.Keys;
    var fences: Fences := map[];
    while rest != {}
      invariant rest <= document.Keys && fences.Keys == document.Keys - rest
      invariant forall id :: id in fences ==> fences[id] == document[id] && ValidFence(id, fences[id])
    {
      var id :| id in rest;
      if !ValidFence(id, document[id]) {
        return None;
      }
      fences := fences[id := document[id]];
      rest := rest - {id};
    }
    assert fences == document;
    loaded := Some(fences);
  }

  /** The settings-only loader remembers which runtime each directory belongs to. */
  method LoadLocals(document: Locals) returns (accepted: bool)
    ensures accepted == AcceptLocals(document)
  {
    var rest := document.Keys;
    var paths: map<Path, AccountId> := map[];
    while rest != {}
      invariant rest <= document.Keys
      invariant forall id :: id in document.Keys - rest ==>
                  && ValidLocal(document[id]) && document[id].identity.runtimeId == id
                  && document[id].directory in paths && paths[document[id].directory] == id
      invariant forall path :: path in paths ==> paths[path] in document.Keys - rest && document[paths[path]].directory == path
    {
      var id :| id in rest;
      var binding := document[id];
      if !ValidLocal(binding) || binding.identity.runtimeId != id {
        return false;
      }
      if binding.directory in paths && paths[binding.directory] != id {
        assert document[paths[binding.directory]].directory == binding.directory;
        return false;
      }
      paths := paths[binding.directory := id];
      rest := rest - {id};
    }
    accepted := true;
  }

  method CheckOperations(document: Adoptions) returns (accepted: bool)
    ensures accepted <==> forall operation :: operation in document.operations ==> OperationAccepted(document, operation)
  {
    var rest := document.operations.Keys;
    while rest != {}
      invariant rest <= document.operations.Keys
      invariant forall operation :: operation in document.operations.Keys - rest ==> OperationAccepted(document, operation)
    {
      var operation :| operation in rest;
      var profile := document.operations[operation];
      if operation != profile.Operation() || !ValidTarget(profile) || profile.Owner() !in document.current {
        assert !OperationAccepted(document, operation);
        return false;
      }
      rest := rest - {operation};
    }
    accepted := true;
  }

  /** The inner loop over the older generations of one runtime. */
  method CheckCurrent(document: Adoptions, id: AccountId) returns (accepted: bool)
    requires id in document.current
    ensures accepted == CurrentAccepted(document, id)
  {
    var operation := document.current[id];
    if operation !in document.operations || document.operations[operation].Owner() != id
       || !RetiredTo(document, StagingDirectory(id), id) {
      return false;
    }
    var rest := document.operations.Keys;
    while rest != {}
      invariant rest <= document.operations.Keys
      invariant forall key :: key in document.operations.Keys - rest && key != operation && document.operations[key].Owner() == id ==>
                  Precedes(document, document.operations[key], document.operations[operation])
    {
      var key :| key in rest;
      if document.operations[key].Owner() == id && key != operation
         && !Precedes(document, document.operations[key], document.operations[operation]) {
        return false;
      }
      rest := rest - {key};
    }
    accepted := true;
  }

  method CheckRetired(document: Adoptions) returns (accepted: bool)
    ensures accepted <==> forall directory :: directory in document.retired ==> RetirementAccepted(document, directory)
  {
    var rest := document.retired.Keys;
    while rest != {}
      invariant rest <= document.retired.Keys
      invariant forall directory :: directory in document.retired.Keys - rest ==> RetirementAccepted(document, directory)
    {
      var directory :| directory in rest;
      if !RetirementAccepted(document, directory) {
        return false;
      }
      rest := rest - {directory};
    }
    accepted := true;
  }

  /** The adoption loader accepts exactly the documents the writers may leave. */
  method LoadAdoptions(document: Adoptions) returns (accepted: bool)
    ensures accepted == AcceptAdoptions(document)
  {
    accepted := CheckOperations(document);
    if !accepted { return; }
    var rest := document.current.Keys;
    while rest != {}
      invariant rest <= document.current.Keys
      invariant forall id :: id in document.current.Keys - rest ==> CurrentAccepted(document, id)
    {
      var id :| id in rest;
      var current := CheckCurrent(document, id);
      if !current {
        return false;
      }
      rest := rest - {id};
    }
    accepted := CheckRetired(document);
  }
}
