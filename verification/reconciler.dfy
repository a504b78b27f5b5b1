/**
 One invocation of the CertificateRequest reconciler as a pure function.

 Every call the controller makes outside itself is an input: the fetch of
 the request, each issuer `Get`, the provisioner registry, the provisioner's
 `Sign` and `Download`, and the two merge patches. The result records which
 of those calls were made, what was written, the event and metric side
 effects, and the `(ctrl.Result, error)` pair returned to controller-runtime.
 */
module Reconciler {
  import opened Api
  import opened Conditions
  import Fold
  import Decimal

  /** The reconciler's configuration fields; `group` is the API group it serves. */
  datatype Config = Config(
    group: string,
    defaultProviderNamespace: string,
    backoffProvisionerNotReady: nat,
    backoffRequestPending: nat,
    disableRootCA: bool)

  datatype Fetch = Found(cr: CertificateRequest) | NotFound | FetchFailed(err: Err)

  /** The result of one issuer `Get`: the status pointer of the object read, or the error. */
  datatype IssuerLookup = Got(status: Option<seq<IssuerCondition>>) | LookupFailed(err: Err)

  /** The CA order a `Sign` call reports; Go `int`s, so possibly zero or negative. */
  datatype Order = Order(id: int, certificateId: int)

  datatype SignResult = Signed(caPEM: Bytes, certPEM: Bytes, order: Order) | SignFailed(err: Err)

  datatype DownloadResult = Downloaded(caPEM: Bytes, certPEM: Bytes) | DownloadFailed(err: Err)

  /**
   The answers of everything outside the controller for this invocation.
   `getIssuer` answers the issuer `Get` calls: its second argument is the
   ordinal of the call within the invocation (0 for the first lookup, 1 for
   the fallback), so a fallback that asks for the same key as the first
   lookup may still get a different answer.
   `provisioners` holds the identities the provisioner registry can load;
   `annotationPatch` and `statusPatch` are the errors of the two patches.
   */
  datatype World = World(
    fetch: Fetch,
    getIssuer: (IssuerKey, nat) -> IssuerLookup,
    provisioners: set<NamespacedName>,
    sign: SignResult,
    download: DownloadResult,
    annotationPatch: Option<Err>,
    statusPatch: Option<Err>)

  datatype Call = NoCall | SignCall | DownloadCall

  datatype EventType = Normal | Warning

  datatype Event = Event(etype: EventType, reason: string, message: Message)

  /** One increment of a Prometheus counter, with its label values. */
  datatype Metric =
    | IssuerNotReadyInc(issuer: NamespacedName, why: string)
    | RequestsPendingInc(request: string, certificate: string, secret: string, orderId: string)
    | RequestErrorsInc(request: string, certificate: string, secret: string, errorLabel: string)

  /** `ctrl.Result`. */
  datatype Schedule = Schedule(requeue: bool, requeueAfter: nat)

  const Done := Schedule(false, 0)

  /** The error returned to controller-runtime, tagged by the call it came from. */
  datatype Failure =
    | GetRequestFailed(err: Err)
    | IssuerLookupError(err: Err)
    | StatusPatchFailed(err: Err)
    | DownloadError(err: Err)
    | AnnotationPatchFailed(err: Err)

  /** How the invocation ends: a normal return, or a panic from writing into a nil map. */
  datatype Exit = Returned(schedule: Schedule, err: Option<Failure>) | Panicked

  /**
   Everything one invocation did. `statusWrite` is the status sent with the
   status merge patch (whether that patch succeeded is `World.statusPatch`);
   `annotationPatch` is the annotation map sent with the object merge patch.
   */
  datatype Outcome = Outcome(
    lookups: seq<IssuerKey>,
    loaded: Option<NamespacedName>,
    call: Call,
    annotationPatch: Option<map<string, string>>,
    statusWrite: Option<RequestStatus>,
    event: Option<Event>,
    metrics: seq<Metric>,
    exit: Exit)

  /** An invocation that touched nothing and returned `err`. */
  function Quiet(err: Option<Failure>): Outcome
  {
    Outcome([], None, NoCall, None, None, None, [], Returned(Done, err))
  }

  predicate NoEffects(out: Outcome)
  {
    && out.lookups == []
    && out.loaded == None
    && out.call == NoCall
    && out.annotationPatch == None
    && out.statusWrite == None
    && out.event == None
    && out.metrics == []
  }

  // ---------------------------------------------------------------------------
  // Status reporting

  datatype Report = Report(status: RequestStatus, event: Event, err: Option<Err>)

  /**
   `setStatus`: sets the Ready condition, records an event that is a warning
   exactly when the condition status is False, and patches the status with
   outcome `patch`.
   */
  function SetStatus(st: RequestStatus, cs: ConditionStatus, reason: string, msg: Message, patch: Option<Err>): (r: Report)
    ensures Condition(ConditionReady, cs, reason, msg) in r.status.conditions
    ensures forall c :: c in r.status.conditions ==> c == Condition(ConditionReady, cs, reason, msg) || c in st.conditions
    ensures forall c :: c in st.conditions && c.ctype != ConditionReady ==> c in r.status.conditions
    ensures NoneOfType(st.conditions, ConditionReady) ==>
              r.status.conditions == st.conditions + [Condition(ConditionReady, cs, reason, msg)]
    ensures forall k :: FirstOfType(st.conditions, ConditionReady, k) ==>
              r.status.conditions == st.conditions[k := Condition(ConditionReady, cs, reason, msg)]
    ensures AtMostOneOfType(st.conditions, ConditionReady) ==>
              && AtMostOneOfType(r.status.conditions, ConditionReady)
              && forall c :: c in r.status.conditions && c.ctype == ConditionReady ==> c == Condition(ConditionReady, cs, reason, msg)
    ensures r.status.certificate == st.certificate && r.status.ca == st.ca
    ensures r.event.etype == Warning <==> cs == ConditionFalse
    ensures r.event.reason == reason && r.event.message == msg
    ensures r.err == patch
  {
    var ready := Condition(ConditionReady, cs, reason, msg);
    var etype := if cs == ConditionFalse then Warning else Normal;
    SetConditionPlacement(st.conditions, ready);
    SetConditionReplaces(st.conditions, ready);
    Report(st.(conditions := SetCondition(st.conditions, ready)), Event(etype, reason, msg), patch)
  }

  /** Records a `setStatus` call in the outcome. */
  function Reported(out: Outcome, rep: Report): Outcome
  {
    out.(statusWrite := Some(rep.status), event := Some(rep.event))
  }

  function StatusFailure(err: Option<Err>): (f: Option<Failure>)
    ensures f.None? <==> err.None?
  {
    if err.Some? then Some(StatusPatchFailed(err.value)) else None
  }

  // ---------------------------------------------------------------------------
  // Issuer resolution

  /** The first issuer `Get` for a request: cluster-scoped kinds are looked up without a namespace. */
  function FirstKey(ref: IssuerRef, namespace: string): IssuerKey
  {
    if Fold.EqualFold(ref.kind, ClusterDigicertIssuerKind)
    then IssuerKey(ClusterIssuer, NamespacedName("", ref.name))
    else IssuerKey(NamespacedIssuer, NamespacedName(namespace, ref.name))
  }

  /** `key` is the issuer identity in effect after the lookups; `found` is the last lookup's result. */
  datatype Resolution = Resolution(variant: IssuerVariant, key: NamespacedName, lookups: seq<IssuerKey>, found: IssuerLookup)

  /**
   Looks the issuer up, and when that fails looks it up once more with the
   namespace replaced by the default provider namespace.
   */
  function ResolveIssuer(defaultNamespace: string, ref: IssuerRef, namespace: string, get: (IssuerKey, nat) -> IssuerLookup): (r: Resolution)
    ensures 1 <= |r.lookups| <= 2
    ensures r.lookups[0].variant == r.variant
    ensures r.lookups[0].name.name == ref.name
    ensures r.variant == ClusterIssuer <==> Fold.EqualFold(ref.kind, ClusterDigicertIssuerKind)
    ensures r.lookups[0].name.namespace == (if r.variant == ClusterIssuer then "" else namespace)
    ensures |r.lookups| == 2 <==> get(r.lookups[0], 0).LookupFailed?
    ensures |r.lookups| == 2 ==> r.lookups[1] == IssuerKey(r.variant, NamespacedName(defaultNamespace, ref.name))
    ensures IssuerKey(r.variant, r.key) == r.lookups[|r.lookups| - 1]
    ensures r.found == get(r.lookups[|r.lookups| - 1], |r.lookups| - 1)
  {
    var first := FirstKey(ref, namespace);
    match get(first, 0)
    case Got(_) => Resolution(first.variant, first.name, [first], get(first, 0))
    case LookupFailed(_) =>
      var second := IssuerKey(first.variant, first.name.(namespace := defaultNamespace));
      Resolution(first.variant, second.name, [first, second], get(second, 1))
  }

  // ---------------------------------------------------------------------------
  // The reconcile loop body

  function Reconcile(cfg: Config, req: NamespacedName, w: World): (out: Outcome)
    ensures w.fetch.NotFound? ==> out == Quiet(None)
    ensures w.fetch.FetchFailed? ==> out == Quiet(Some(GetRequestFailed(w.fetch.err)))
    ensures out.call != NoCall ==> out.loaded.Some? && out.loaded.value in w.provisioners
    ensures out.statusWrite.Some? <==> out.event.Some?
    ensures out.annotationPatch.Some? ==> out.call == SignCall
  {
    match w.fetch
    case NotFound => Quiet(None)
    case FetchFailed(e) => Quiet(Some(GetRequestFailed(e)))
    case Found(cr) =>
      if cr.issuerRef.group != cfg.group then Quiet(None)
      else if |cr.status.certificate| > 0 then Quiet(None)
      else
        var res := ResolveIssuer(cfg.defaultProviderNamespace, cr.issuerRef, req.namespace, w.getIssuer);
        Resolved(cfg, cr, res, w)
  }

  /** Everything after the issuer lookups. */
  function Resolved(cfg: Config, cr: CertificateRequest, res: Resolution, w: World): Outcome
  {
    var out := Quiet(None).(lookups := res.lookups);
    match res.found
    case LookupFailed(e) =>
      var rep := SetStatus(cr.status, ConditionFalse, ReasonPending, IssuerNotFound(res.variant, res.key, e), w.statusPatch);
      Reported(out, rep).(
        metrics := [IssuerNotReadyInc(res.key, "issuer not found")],
        exit := Returned(Done, Some(IssuerLookupError(e))))
    case Got(issuerStatus) =>
      if !IssuerReady(issuerStatus) then
        var rep := SetStatus(cr.status, ConditionFalse, ReasonPending, IssuerNotReady(res.variant, res.key), w.statusPatch);
        Reported(out, rep).(
          metrics := [IssuerNotReadyInc(res.key, "issuer not ready")],
          exit := NotReadyExit(cfg, rep.err))
      else
        var out := out.(loaded := Some(res.key));
        if res.key !in w.provisioners then
          var rep := SetStatus(cr.status, ConditionFalse, ReasonPending, ProvisionerNotFound(res.variant, res.key), w.statusPatch);
          Reported(out, rep).(
            metrics := [IssuerNotReadyInc(res.key, "provisioner not found")],
            exit := NotReadyExit(cfg, rep.err))
        else if RequestPending(cr) then
          DownloadStep(cfg, cr, w, out.(call := DownloadCall))
        else
          SignStep(cfg, cr, w, out.(call := SignCall))
  }

  /** The return of the two not-ready gates: the status patch error, or a requeue after the not-ready backoff. */
  function NotReadyExit(cfg: Config, err: Option<Err>): Exit
  {
    if err.Some? then Returned(Done, Some(StatusPatchFailed(err.value)))
    else Returned(Schedule(false, cfg.backoffProvisionerNotReady), None)
  }

  /** The status carrying an issued certificate; the CA is copied only when non-empty and not disabled. */
  function WithCertificate(cfg: Config, st: RequestStatus, caPEM: Bytes, certPEM: Bytes): (r: RequestStatus)
  {
    st.(ca := if |caPEM| > 0 && !cfg.disableRootCA then caPEM else st.ca, certificate := certPEM)
  }

  function DownloadStep(cfg: Config, cr: CertificateRequest, w: World, out: Outcome): Outcome
  {
    match w.download
    case DownloadFailed(e) => DownloadPending(cfg, cr, w, out, Some(DownloadError(e)))
    case Downloaded(caPEM, certPEM) =>
      if |certPEM| < 1 then DownloadPending(cfg, cr, w, out, None)
      else
        var rep := SetStatus(WithCertificate(cfg, cr.status, caPEM, certPEM), ConditionTrue, ReasonIssued, Text("Certificate issued"), w.statusPatch);
        Reported(out, rep).(exit := Returned(Done, StatusFailure(rep.err)))
  }

  /** A download that failed or returned no certificate: the status error is dropped. */
  function DownloadPending(cfg: Config, cr: CertificateRequest, w: World, out: Outcome, err: Option<Failure>): Outcome
  {
    var rep := SetStatus(cr.status, ConditionFalse, ReasonPending, Text("Certificate request pending"), w.statusPatch);
    var pending := RequestsPendingInc(
      cr.name.name,
      Annotation(cr.annotations, AnnotationCertificateName),
      Annotation(cr.annotations, AnnotationSecretName),
      Annotation(cr.annotations, AnnotationOrderId));
    Reported(out, rep).(metrics := [pending], exit := Returned(Schedule(true, cfg.backoffRequestPending), err))
  }

  /**
   The annotations written after a successful `Sign`: the acquisition marker,
   and each CA identifier that is positive, in decimal.
   */
  function PatchAnnotations(m: map<string, string>, order: Order): (r: map<string, string>)
    ensures r.Keys == m.Keys + {AnnotationIssuer}
                     + (if order.id > 0 then {AnnotationOrderId} else {})
                     + (if order.certificateId > 0 then {AnnotationCertId} else {})
    ensures r[AnnotationIssuer] == "true"
    ensures order.id > 0 ==> r[AnnotationOrderId] == Decimal.Format(order.id)
    ensures order.certificateId > 0 ==> r[AnnotationCertId] == Decimal.Format(order.certificateId)
    ensures forall k :: (k in m && k != AnnotationIssuer
                         && (k != AnnotationOrderId || order.id <= 0)
                         && (k != AnnotationCertId || order.certificateId <= 0)) ==> r[k] == m[k]
  {
    var marked := m[AnnotationIssuer := "true"];
    var withOrder := if order.id > 0 then marked[AnnotationOrderId := Decimal.Format(order.id)] else marked;
    if order.certificateId > 0 then withOrder[AnnotationCertId := Decimal.Format(order.certificateId)] else withOrder
  }

  function RequestError(cr: CertificateRequest, errorLabel: string): Metric
  {
    RequestErrorsInc(
      cr.name.name,
      Annotation(cr.annotations, AnnotationCertificateName),
      Annotation(cr.annotations, AnnotationSecretName),
      errorLabel)
  }

  function SignStep(cfg: Config, cr: CertificateRequest, w: World, out: Outcome): Outcome
  {
    match w.sign
    case SignFailed(e) =>
      var rep := SetStatus(cr.status, ConditionFalse, ReasonFailed, SignError(e), w.statusPatch);
      Reported(out, rep).(
        metrics := [RequestError(cr, "Failed to sign certificate request")],
        exit := Returned(Done, StatusFailure(rep.err)))
    case Signed(caPEM, certPEM, order) =>
      match cr.annotations
      case None => out.(exit := Panicked)
      case Some(m) =>
        var patched := PatchAnnotations(m, order);
        var out := out.(annotationPatch := Some(patched));
        if w.annotationPatch.Some? then
          out.(exit := Returned(Done, Some(AnnotationPatchFailed(w.annotationPatch.value))))
        else
          var cr := cr.(annotations := Some(patched));
          if |certPEM| > 0 then
            var rep := SetStatus(WithCertificate(cfg, cr.status, caPEM, certPEM), ConditionTrue, ReasonIssued, Text("Certificate issued"), w.statusPatch);
            Reported(out, rep).(exit := Returned(Done, StatusFailure(rep.err)))
          else if order.certificateId > 0 then
            var rep := SetStatus(cr.status, ConditionFalse, ReasonPending, Text("Certificate request pending"), w.statusPatch);
            Reported(out, rep).(exit := Returned(Schedule(true, cfg.backoffProvisionerNotReady), StatusFailure(rep.err)))
          else
            var rep := SetStatus(cr.status, ConditionUnknown, ReasonFailed, Text("Certificate request failed"), w.statusPatch);
            Reported(out, rep).(
              metrics := [RequestError(cr, "Certificate request failed")],
              exit := Returned(Done, StatusFailure(rep.err)))
  }

  /**
   The request as the store holds it after the invocation: the annotation
   patch and the status patch each take effect only when sent and accepted.
   */
  function Stored(cr: CertificateRequest, w: World, out: Outcome): CertificateRequest
  {
    var annotated := if out.annotationPatch.Some? && w.annotationPatch.None? then cr.(annotations := out.annotationPatch) else cr;
    if out.statusWrite.Some? && w.statusPatch.None? then annotated.(status := out.statusWrite.value) else annotated
  }
}
