/** The persisted per-identifier record table and the sessions handlers open on it.

    Only the read session's code is part of this model; the create, update, delete and list
    sessions are modelled as the operations of the table that the contract scenarios rely on. */
module RecordStore {
  import opened Results

  /** The kinds of session a handler can open on the table. */
  datatype SessionKind = CreateSession | ReadSession | UpdateSession | DeleteSession | ListSession

  /** The exceptions of the CloudFormation handler library, which a session lets through as raised. */
  predicate IsHandlerException(e: Error)
  {
    e.RecordNotFound? || e.NotFound? || e.AlreadyExists? || e.InternalFailure? || e.SessionInternalFailure?
  }

  /** The exception that leaves a session whose body raised `e`. The read session never
      suppresses nor replaces an exception; the other sessions replace any exception that is
      not a handler exception with a HandlerInternalFailure. */
  function SurfacedError(kind: SessionKind, e: Error): (r: Error)
    // the read session lets every exception propagate as raised
    ensures kind == ReadSession ==> r == e
    // the other sessions only let handler exceptions out
    ensures kind != ReadSession ==> IsHandlerException(r)
    // a handler exception is never replaced, and anything else is kept as the cause
    ensures IsHandlerException(e) ==> r == e
    ensures r == e || r == SessionInternalFailure(e)
  {
    if kind == ReadSession || IsHandlerException(e) then e else SessionInternalFailure(e)
  }

  /** The table: at most one model per primary identifier. */
  class Store<K(==), M> {
    var records: map<K, M>

    /** A table with no records. */
    constructor ()
      ensures records == map[]
    {
      records := map[];
    }

    /** Whether a session of `kind` for `id` can be entered: read, update and delete sessions
        need the record, create and list sessions do not. */
    predicate Admits(kind: SessionKind, id: Option<K>)
      reads this
    {
      match kind
      case CreateSession => true
      case ListSession => true
      case _ => id.Some? && id.value in records
    }

    /** Entering a session of `kind` for `id`; entering writes nothing. */
    method Open(kind: SessionKind, id: Option<K>) returns (r: Outcome)
      ensures r == Pass <==> Admits(kind, id)
      ensures r.Fail? ==> r.error == RecordNotFound
      // a create session can be entered again for a recorded identifier (re-invocation)
      ensures kind == CreateSession ==> r == Pass
      // read, update and delete sessions refuse an identifier with no record
      ensures kind in {ReadSession, UpdateSession, DeleteSession} ==>
        (r == Pass <==> id.Some? && id.value in records)
    {
      if kind == CreateSession || kind == ListSession {
        return Pass;
      }
      if id.Some? && id.value in records {
        return Pass;
      }
      return Fail(RecordNotFound);
    }

    /** set_resource_created: records the model, refusing an identifier that already has a record. */
    method SetResourceCreated(id: K, m: M) returns (r: Outcome)
      modifies this
      ensures id in old(records) ==> r == Fail(AlreadyExists) && records == old(records)
      ensures id !in old(records) ==> r == Pass && records == old(records)[id := m]
    {
      if id in records {
        return Fail(AlreadyExists);
      }
      records := records[id := m];
      return Pass;
    }

    /** update_model: replaces the session's record. */
    method UpdateModel(id: K, m: M)
      modifies this
      ensures records == old(records)[id := m]
    {
      records := records[id := m];
    }

    /** set_resource_deleted: removes the session's record. */
    method SetResourceDeleted(id: K)
      modifies this
      ensures records == old(records) - {id}
    {
      records := records - {id};
    }

    /** list_identifiers: the identifiers that have a record. */
    method ListIdentifiers() returns (ids: set<K>)
      ensures forall id :: id in ids <==> id in records
    {
      ids := records.Keys;
    }
  }

  /** A read session over the table for one primary identifier. */
  class ResourceRead<K(==), M> {
    const store: Store<K, M>
    const primaryIdentifier: Option<K>
    const typeName: string

    constructor (store: Store<K, M>, primaryIdentifier: Option<K>, typeName: string)
      ensures this.store == store && this.primaryIdentifier == primaryIdentifier && this.typeName == typeName
    {
      this.store := store;
      this.primaryIdentifier := primaryIdentifier;
      this.typeName := typeName;
    }

    /** __enter__: the session itself when the record exists, NotFound otherwise; the table is
        left as it was. */
    method Enter() returns (r: Result<ResourceRead<K, M>>)
      ensures r.Ok? <==> store.Admits(ReadSession, primaryIdentifier)
      ensures r.Ok? ==> r.value == this
      ensures r.Err? ==> r.error == RecordNotFound
    {
      if primaryIdentifier.Some? && primaryIdentifier.value in store.records {
        return Ok(this);
      }
      return Err(RecordNotFound);
    }

    /** read_model: a missing primary identifier is refused with a plain exception; otherwise the
        stored model is returned. Nothing is written. */
    function ReadModel(): (r: Result<M>)
      reads store
      ensures primaryIdentifier.None? <==> r == Err(GenericException("Primary Identifier cannot be Null"))
      ensures r.Ok? <==> store.Admits(ReadSession, primaryIdentifier)
      ensures r.Ok? ==> r.value == store.records[primaryIdentifier.value]
      ensures primaryIdentifier.Some? && r.Err? ==> r.error == RecordNotFound
    {
      if primaryIdentifier.None? then Err(GenericException("Primary Identifier cannot be Null"))
      else if primaryIdentifier.value in store.records then Ok(store.records[primaryIdentifier.value])
      else Err(RecordNotFound)
    }

    /** __exit__: writes nothing whether the body succeeded or raised, and never suppresses the
        body's exception. */
    method Exit(raised: Option<Error>) returns (suppress: bool)
      ensures !suppress
    {
      return false;
    }
  }
}
