/** Jobs, watch-list entries and webhook notifications: what the publisher stores for a
    transaction and what the notifier says about it once it is found in a block. */
module Transactions {
  import opened Chain

  datatype TransactionType = ChangeHandle | CreateHandle | SiwfSignup | SiwfSignin | AddKey

  datatype Job = Job(txType: TransactionType, referenceId: string, providerId: string)

  datatype TxStatus = TxStatus(
    txType: TransactionType,
    referenceId: string,
    providerId: string,
    txHash: Hash,
    successEvent: EventName,
    birth: nat,
    death: nat)

  type WatchList = map<Hash, TxStatus>

  /** Every entry is stored under its own hash. */
  ghost predicate WellKeyed(watch: WatchList) {
    forall h :: h in watch ==> watch[h].txHash == h
  }

  /** The publisher's switch on the job type; `None` is its "Invalid job type" error. */
  function TargetEvent(t: TransactionType): Option<EventName> {
    match t
    case CreateHandle => Some(HandlesHandleClaimed)
    case ChangeHandle => Some(HandlesHandleClaimed)
    case SiwfSignup => Some(UtilityBatchCompleted)
    case AddKey => Some(MsaPublicKeyAdded)
    case SiwfSignin => None
  }

  function BuildStatus(job: Job, txHash: Hash, birth: nat, death: nat): Option<TxStatus> {
    match TargetEvent(job.txType)
    case None => None
    case Some(target) => Some(TxStatus(job.txType, job.referenceId, job.providerId, txHash, target, birth, death))
  }

  /** The entry was made by the publisher. */
  ghost predicate FromPublisher(status: TxStatus) {
    exists job: Job :: BuildStatus(job, status.txHash, status.birth, status.death) == Some(status)
  }

  // ---- Reading a transaction's events ----
  /** The first event with the given name. */
  function FindEvent(events: seq<Event>, name: EventName): Option<Event> {
    if events == [] then None
    else if events[0].Name() == name then Some(events[0])
    else FindEvent(events[1..], name)
  }

  /** `e` is the first of `events` with the given name. */
  ghost predicate FirstNamed(events: seq<Event>, name: EventName, e: Event) {
    exists i :: && 0 <= i < |events| && events[i] == e && e.Name() == name
                && forall j :: 0 <= j < i ==> events[j].Name() != name
  }

  /** What the rest of the events says about a name also holds of them all, if the first has another. */
  lemma FirstOfRest(events: seq<Event>, name: EventName, found: Option<Event>)
    requires events != [] && events[0].Name() != name
    ensures (forall i :: 0 <= i < |events| ==> events[i].Name() != name)
       <==> (forall i :: 0 <= i < |events[1..]| ==> events[1..][i].Name() != name)
    ensures found.Some? && FirstNamed(events[1..], name, found.value) ==> FirstNamed(events, name, found.value)
  {
    var rest := events[1..];
    assert forall i :: 0 < i < |events| ==> events[i] == rest[i - 1];
    assert forall i :: 0 <= i < |rest| ==> rest[i] == events[i + 1];
    if found.Some? && FirstNamed(rest, name, found.value) {
      var i :| 0 <= i < |rest| && rest[i] == found.value && forall j :: 0 <= j < i ==> rest[j].Name() != name;
      assert events[i + 1] == found.value;
    }
  }

  lemma {:induction false} FindEventFirst(events: seq<Event>, name: EventName)
    ensures FindEvent(events, name).None? <==> forall i :: 0 <= i < |events| ==> events[i].Name() != name
    ensures FindEvent(events, name).Some? ==> FirstNamed(events, name, FindEvent(events, name).value)
  {
    if events == [] {
    } else {
      FindEventFirst(events[1..], name);
      if events[0].Name() == name {
        assert FirstNamed(events, name, events[0]);
      } else {
        FirstOfRest(events, name, FindEvent(events[1..], name));
      }
    }
  }

  datatype SiwfValues = SiwfValues(
    msaId: Option<string>,
    address: Option<string>,
    handle: Option<string>,
    newProvider: Option<string>)

  /** One turn of the loop over a sign-up's events: a later event overwrites an earlier one. */
  function SiwfStep(v: SiwfValues, e: Event): SiwfValues {
    match e
    case MsaCreated(msaId, key) => v.(msaId := Some(msaId), address := Some(key))
    case HandleClaimed(_, handle) => v.(handle := Some(handle))
    case DelegationGranted(providerId, _) => v.(newProvider := Some(providerId))
    case _ => v
  }

  function SiwfResult(events: seq<Event>): SiwfValues {
    if events == [] then SiwfValues(None, None, None, None)
    else SiwfStep(SiwfResult(events[..|events| - 1]), events[|events| - 1])
  }

  method HandleSiwfTxnResult(events: seq<Event>) returns (values: SiwfValues)
    ensures values == SiwfResult(events)
  {
    values := SiwfValues(None, None, None, None);
    for i := 0 to |events|
      invariant values == SiwfResult(events[..i])
    {
      match events[i] {
        case MsaCreated(msaId, key) => values := values.(msaId := Some(msaId), address := Some(key));
        case HandleClaimed(_, handle) => values := values.(handle := Some(handle));
        case DelegationGranted(providerId, _) => values := values.(newProvider := Some(providerId));
        case _ =>
      }
      assert events[..i + 1][..i] == events[..i];
    }
    assert events[..|events|] == events;
  }

  /** `i` is the last position of an event satisfying `name`. */
  ghost predicate LastAt(events: seq<Event>, name: EventName, i: int) {
    && 0 <= i < |events| && events[i].Name() == name
    && forall j :: i < j < |events| ==> events[j].Name() != name
  }

  /** The identifier and address are those of the last MsaCreated event, and undefined exactly
      when there is none. */
  ghost predicate MsaMeaning(v: SiwfValues, events: seq<Event>) {
    && (v.msaId.None? <==> forall i :: 0 <= i < |events| ==> !events[i].MsaCreated?)
    && (v.address.None? <==> v.msaId.None?)
    && (v.msaId.Some? ==>
          exists i :: LastAt(events, MsaMsaCreated, i) && events[i] == MsaCreated(v.msaId.value, v.address.value))
  }

  /** Likewise the handle and the last HandleClaimed event. */
  ghost predicate HandleMeaning(v: SiwfValues, events: seq<Event>) {
    && (v.handle.None? <==> forall i :: 0 <= i < |events| ==> !events[i].HandleClaimed?)
    && (v.handle.Some? ==>
          exists i :: && LastAt(events, HandlesHandleClaimed, i)
                      && events[i].HandleClaimed? && events[i].handle == v.handle.value)
  }

  lemma MsaStep(v: SiwfValues, events: seq<Event>, e: Event)
    requires MsaMeaning(v, events)
    ensures MsaMeaning(SiwfStep(v, e), events + [e])
  {
    var all := events + [e];
    assert e == all[|events|] && forall i :: 0 <= i < |events| ==> all[i] == events[i];
    if e.MsaCreated? {
      assert LastAt(all, MsaMsaCreated, |events|);
    } else if v.msaId.Some? {
      var i :| LastAt(events, MsaMsaCreated, i) && events[i] == MsaCreated(v.msaId.value, v.address.value);
      assert LastAt(all, MsaMsaCreated, i) && all[i] == events[i];
    }
  }

  lemma HandleStep(v: SiwfValues, events: seq<Event>, e: Event)
    requires HandleMeaning(v, events)
    ensures HandleMeaning(SiwfStep(v, e), events + [e])
  {
    var all := events + [e];
    assert e == all[|events|] && forall i :: 0 <= i < |events| ==> all[i] == events[i];
    if e.HandleClaimed? {
      assert LastAt(all, HandlesHandleClaimed, |events|);
    } else if v.handle.Some? {
      var i :| && LastAt(events, HandlesHandleClaimed, i)
               && events[i].HandleClaimed? && events[i].handle == v.handle.value;
      assert LastAt(all, HandlesHandleClaimed, i) && all[i] == events[i];
    }
  }

  /** And the provider and the last DelegationGranted event. */
  ghost predicate ProviderMeaning(v: SiwfValues, events: seq<Event>) {
    && (v.newProvider.None? <==> forall i :: 0 <= i < |events| ==> !events[i].DelegationGranted?)
    && (v.newProvider.Some? ==>
          exists i :: && LastAt(events, MsaDelegationGranted, i)
                      && events[i].DelegationGranted? && events[i].providerId == v.newProvider.value)
  }

  lemma ProviderStep(v: SiwfValues, events: seq<Event>, e: Event)
    requires ProviderMeaning(v, events)
    ensures ProviderMeaning(SiwfStep(v, e), events + [e])
  {
    var all := events + [e];
    assert e == all[|events|] && forall i :: 0 <= i < |events| ==> all[i] == events[i];
    if e.DelegationGranted? {
      assert LastAt(all, MsaDelegationGranted, |events|);
    } else if v.newProvider.Some? {
      var i :| && LastAt(events, MsaDelegationGranted, i)
               && events[i].DelegationGranted? && events[i].providerId == v.newProvider.value;
      assert LastAt(all, MsaDelegationGranted, i) && all[i] == events[i];
    }
  }

  lemma {:induction false} SiwfResultMeaning(events: seq<Event>)
    ensures ProviderMeaning(SiwfResult(events), events)
    ensures MsaMeaning(SiwfResult(events), events)
    ensures HandleMeaning(SiwfResult(events), events)
  {
    if events == [] {
    } else {
      var last := |events| - 1;
      SiwfResultMeaning(events[..last]);
      MsaStep(SiwfResult(events[..last]), events[..last], events[last]);
      HandleStep(SiwfResult(events[..last]), events[..last], events[last]);
      ProviderStep(SiwfResult(events[..last]), events[..last], events[last]);
      assert events[..last] + [events[last]] == events;
    }
  }

  // ---- Notifications ----
  datatype WebhookRsp = WebhookRsp(
    transactionType: Option<TransactionType>,
    providerId: Option<string>,
    referenceId: string,
    msaId: Option<string>,
    accountId: Option<string>,
    handle: Option<string>,
    newPublicKey: Option<string>)

  function HandleResponse(base: WebhookRsp, success: Event): WebhookRsp {
    if success.HandleClaimed? then base.(msaId := Some(success.owner), handle := Some(success.handle)) else base
  }

  /** The body posted for a transaction whose success event is `success`. An unknown type is
      logged, and the body then holds nothing but the reference id. */
  function Response(status: TxStatus, success: Event, events: seq<Event>): WebhookRsp {
    var base := WebhookRsp(Some(status.txType), Some(status.providerId), status.referenceId, None, None, None, None);
    match status.txType
    case CreateHandle => HandleResponse(base, success)
    case ChangeHandle => HandleResponse(base, success)
    case SiwfSignup =>
      var v := SiwfResult(events);
      base.(msaId := v.msaId, accountId := v.address, handle := v.handle)
    case AddKey =>
      if success.PublicKeyAdded?
      then base.(msaId := Some(success.keyOwner), newPublicKey := Some(success.newKey))
      else base
    case SiwfSignin => base.(transactionType := None, providerId := None)
  }

  datatype Outcome = Failed | Succeeded(rsp: WebhookRsp) | Unexplained

  /** How the notifier classifies a matched transaction: a failure event wins over a success event. */
  function Classify(status: TxStatus, events: seq<Event>): Outcome {
    var success := FindEvent(events, status.successEvent);
    if FindEvent(events, SystemExtrinsicFailed).Some? then Failed
    else if success.Some? then Succeeded(Response(status, success.value, events))
    else Unexplained
  }

  /** Success is reported exactly when the success event is present and no failure event is. */
  lemma ClassifyMeaning(status: TxStatus, events: seq<Event>)
    ensures Classify(status, events).Succeeded? <==>
              && (exists e :: e in events && e.Name() == status.successEvent)
              && (forall e :: e in events ==> !e.ExtrinsicFailed?)
    ensures Classify(status, events).Failed? <==> exists e :: e in events && e.ExtrinsicFailed?
  {
    FindEventFirst(events, status.successEvent);
    FindEventFirst(events, SystemExtrinsicFailed);
    assert forall e: Event :: e.Name() == SystemExtrinsicFailed <==> e.ExtrinsicFailed?;
  }

  /** Every entry the publisher writes has a publishable type and that type's own success
      event, so the unknown-type branch is unreachable; the invalid-job error is exactly SIWF_SIGNIN. */
  lemma PublisherWritesPublishableTypes(job: Job, txHash: Hash, birth: nat, death: nat)
    ensures BuildStatus(job, txHash, birth, death).None? <==> job.txType.SiwfSignin?
    ensures var s := BuildStatus(job, txHash, birth, death);
            s.Some? ==>
              && FromPublisher(s.value) && s.value.txType == job.txType && s.value.txHash == txHash
              && s.value.referenceId == job.referenceId && s.value.providerId == job.providerId
              && s.value.birth == birth && s.value.death == death
              && (job.txType.SiwfSignup? ==> s.value.successEvent == UtilityBatchCompleted)
              && (job.txType.AddKey? ==> s.value.successEvent == MsaPublicKeyAdded)
              && (job.txType.CreateHandle? || job.txType.ChangeHandle? ==> s.value.successEvent == HandlesHandleClaimed)
  {
    var s := BuildStatus(job, txHash, birth, death);
    if s.Some? {
      assert BuildStatus(job, s.value.txHash, s.value.birth, s.value.death) == Some(s.value);
    }
  }

  /** The transaction at position `i` of the block has the outcome that its type calls for. */
  ghost predicate SucceededIn(t: TransactionType, b: Block, i: nat) {
    && !Emitted(b, i, ExtrinsicFailed)
    && match t
       case CreateHandle => exists owner, handle :: Emitted(b, i, HandleClaimed(owner, handle))
       case ChangeHandle => exists owner, handle :: Emitted(b, i, HandleClaimed(owner, handle))
       case SiwfSignup => Emitted(b, i, BatchCompleted)
       case AddKey => exists owner, key :: Emitted(b, i, PublicKeyAdded(owner, key))
       case SiwfSignin => false
  }

  /** An event with the success event's name was emitted. */
  ghost predicate NamedIn(b: Block, i: nat, name: EventName) {
    exists e :: Emitted(b, i, e) && e.Name() == name
  }

  /** The classification, over the records of the block. */
  lemma ClassifiedInBlock(status: TxStatus, b: Block, i: nat)
    ensures Classify(status, EventsOf(b.events, i)).Succeeded?
       <==> NamedIn(b, i, status.successEvent) && !Emitted(b, i, ExtrinsicFailed)
    ensures Classify(status, EventsOf(b.events, i)).Failed? <==> Emitted(b, i, ExtrinsicFailed)
  {
    var events := EventsOf(b.events, i);
    ClassifyMeaning(status, events);
    forall e ensures e in events <==> Emitted(b, i, e) { EventsOfEmitted(b, i, e); }
    assert forall e: Event :: e.ExtrinsicFailed? <==> e == ExtrinsicFailed;
  }

  lemma NamesMeant(b: Block, i: nat)
    ensures NamedIn(b, i, HandlesHandleClaimed) <==> exists owner, handle :: Emitted(b, i, HandleClaimed(owner, handle))
    ensures NamedIn(b, i, MsaPublicKeyAdded) <==> exists owner, key :: Emitted(b, i, PublicKeyAdded(owner, key))
    ensures NamedIn(b, i, UtilityBatchCompleted) <==> Emitted(b, i, BatchCompleted)
  {
    if NamedIn(b, i, HandlesHandleClaimed) {
      var e :| Emitted(b, i, e) && e.Name() == HandlesHandleClaimed;
      assert e == HandleClaimed(e.owner, e.handle);
    }
    if owner, handle :| Emitted(b, i, HandleClaimed(owner, handle)) {
      assert HandleClaimed(owner, handle).Name() == HandlesHandleClaimed;
    }
    if NamedIn(b, i, MsaPublicKeyAdded) {
      var e :| Emitted(b, i, e) && e.Name() == MsaPublicKeyAdded;
      assert e == PublicKeyAdded(e.keyOwner, e.newKey);
    }
    if owner, key :| Emitted(b, i, PublicKeyAdded(owner, key)) {
      assert PublicKeyAdded(owner, key).Name() == MsaPublicKeyAdded;
    }
    if Emitted(b, i, BatchCompleted) { assert BatchCompleted.Name() == UtilityBatchCompleted; }
  }

  /** From the job to the block: an entry written by the publisher is classified a success exactly
      if its transaction emitted what the job's type calls for, and did not fail. */
  lemma SuccessMeaning(status: TxStatus, b: Block, i: nat)
    requires FromPublisher(status)
    ensures Classify(status, EventsOf(b.events, i)).Succeeded? <==> SucceededIn(status.txType, b, i)
  {
    ClassifiedInBlock(status, b, i);
    NamesMeant(b, i);
  }

  /** A type the publisher never writes: the body holds the reference id and nothing else. */
  lemma UnknownTypeBare(status: TxStatus, events: seq<Event>)
    requires status.txType.SiwfSignin? && Classify(status, events).Succeeded?
    ensures Classify(status, events).rsp == WebhookRsp(None, None, status.referenceId, None, None, None, None)
  {}

  /** What a success notification of an entry written by the publisher contains. */
  lemma NotificationFields(status: TxStatus, events: seq<Event>)
    requires FromPublisher(status)
    requires Classify(status, events).Succeeded?
    ensures var rsp := Classify(status, events).rsp;
            && rsp.referenceId == status.referenceId
            && rsp.transactionType == Some(status.txType) && rsp.providerId == Some(status.providerId)
            && (status.txType.CreateHandle? || status.txType.ChangeHandle? ==>
                  && rsp.msaId.Some? && rsp.handle.Some?
                  && FirstNamed(events, HandlesHandleClaimed, HandleClaimed(rsp.msaId.value, rsp.handle.value))
                  && rsp.accountId.None? && rsp.newPublicKey.None?)
            && (status.txType.AddKey? ==>
                  && rsp.msaId.Some? && rsp.newPublicKey.Some?
                  && FirstNamed(events, MsaPublicKeyAdded, PublicKeyAdded(rsp.msaId.value, rsp.newPublicKey.value))
                  && rsp.accountId.None? && rsp.handle.None?)
            && (status.txType.SiwfSignup? ==>
                  && (rsp.msaId.None? <==> forall e :: e in events ==> !e.MsaCreated?)
                  && (rsp.accountId.None? <==> rsp.msaId.None?)
                  && (rsp.msaId.Some? ==>
                        exists k :: && LastAt(events, MsaMsaCreated, k)
                                    && events[k] == MsaCreated(rsp.msaId.value, rsp.accountId.value))
                  && (rsp.handle.None? <==> forall e :: e in events ==> !e.HandleClaimed?)
                  && (rsp.handle.Some? ==>
                        exists k :: && LastAt(events, HandlesHandleClaimed, k)
                                    && events[k].HandleClaimed? && events[k].handle == rsp.handle.value)
                  && rsp.newPublicKey.None?)
  {
    FindEventFirst(events, status.successEvent);
    assert FirstNamed(events, status.successEvent, FindEvent(events, status.successEvent).value);
    SiwfResultMeaning(events);
  }
}
