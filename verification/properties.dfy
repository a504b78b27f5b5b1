/**
 Properties of one reconcile invocation, branch by branch, and of two
 successive invocations on the object the first one left in the store.
 */
module Properties {
  import opened Api
  import opened Conditions
  import opened Reconciler
  import Decimal
  import Fold

  /** The issuer resolution a fetched request goes through. */
  function ResolutionOf(cfg: Config, req: NamespacedName, cr: CertificateRequest, w: World): Resolution
  {
    ResolveIssuer(cfg.defaultProviderNamespace, cr.issuerRef, req.namespace, w.getIssuer)
  }

  /** The request was fetched, belongs to this controller and has no certificate yet. */
  predicate Admitted(cfg: Config, w: World)
  {
    w.fetch.Found? && w.fetch.cr.issuerRef.group == cfg.group && |w.fetch.cr.status.certificate| == 0
  }

  /** The invocation gets past issuer lookup, readiness and provisioner lookup. */
  predicate ReachesProvisioner(cfg: Config, req: NamespacedName, w: World)
  {
    && Admitted(cfg, w)
    && var res := ResolutionOf(cfg, req, w.fetch.cr, w);
       res.found.Got? && IssuerReady(res.found.status) && res.key in w.provisioners
  }

  /** The status carries a Ready condition with this status and reason. */
  predicate ReadyIs(st: RequestStatus, cs: ConditionStatus, reason: string)
  {
    exists c :: c in st.conditions && c.ctype == ConditionReady && c.status == cs && c.reason == reason
  }

  predicate NoPendingReason(cr: CertificateRequest)
  {
    forall i :: 0 <= i < |cr.status.conditions| ==> cr.status.conditions[i].reason != ReasonPending
  }

  // ---------------------------------------------------------------------------
  // One invocation

  /** A request of another group, or one that already has a certificate, is left untouched. */
  lemma ShortCircuit(cfg: Config, req: NamespacedName, w: World)
    requires w.fetch.Found?
    requires w.fetch.cr.issuerRef.group != cfg.group || |w.fetch.cr.status.certificate| > 0
    ensures NoEffects(Reconcile(cfg, req, w))
    ensures Reconcile(cfg, req, w).exit == Returned(Done, None)
  {
  }

  /**
   The first lookup is cluster-scoped (no namespace) exactly when the kind
   matches `ClusterDigicertIssuer` up to case; a failed lookup is retried
   exactly once, in the default provider namespace.
   */
  lemma IssuerLookups(cfg: Config, req: NamespacedName, w: World)
    requires Admitted(cfg, w)
    ensures var out := Reconcile(cfg, req, w);
            var ref := w.fetch.cr.issuerRef;
            var cluster := Fold.EqualFold(ref.kind, ClusterDigicertIssuerKind);
            var first := IssuerKey(if cluster then ClusterIssuer else NamespacedIssuer,
                                   NamespacedName(if cluster then "" else req.namespace, ref.name));
            && out.lookups[0] == first
            && (w.getIssuer(first, 0).Got? ==> out.lookups == [first])
            && (w.getIssuer(first, 0).LookupFailed? ==>
                  out.lookups == [first, first.(name := NamespacedName(cfg.defaultProviderNamespace, ref.name))])
  {
    var res := ResolutionOf(cfg, req, w.fetch.cr, w);
    assert Reconcile(cfg, req, w).lookups == res.lookups;
  }

  /**
   A namespaced issuer requested from the default provider namespace is
   looked up twice under the same key when the first `Get` fails; the
   second `Get` is a call of its own, and when it finds a ready issuer with
   a registered provisioner the invocation goes on to `Sign` or `Download`.
   */
  lemma SameKeyFallback(cfg: Config, req: NamespacedName, w: World)
    requires Admitted(cfg, w)
    requires !Fold.EqualFold(w.fetch.cr.issuerRef.kind, ClusterDigicertIssuerKind)
    requires req.namespace == cfg.defaultProviderNamespace
    ensures var key := IssuerKey(NamespacedIssuer, NamespacedName(req.namespace, w.fetch.cr.issuerRef.name));
            var out := Reconcile(cfg, req, w);
            && (w.getIssuer(key, 0).LookupFailed? ==> out.lookups == [key, key])
            && (w.getIssuer(key, 0).LookupFailed? && w.getIssuer(key, 1).Got? &&
                IssuerReady(w.getIssuer(key, 1).status) && key.name in w.provisioners ==>
                  out.call != NoCall)
  {
    IssuerLookups(cfg, req, w);
    ProvisionerCall(cfg, req, w);
  }

  /**
   When the fallback lookup fails as well, the request is marked
   `Ready=False/Pending` and the lookup error is returned with no requeue
   delay; the status patch error is ignored.
   */
  lemma IssuerNotFoundOutcome(cfg: Config, req: NamespacedName, w: World)
    requires Admitted(cfg, w)
    requires ResolutionOf(cfg, req, w.fetch.cr, w).found.LookupFailed?
    ensures var out := Reconcile(cfg, req, w);
            var res := ResolutionOf(cfg, req, w.fetch.cr, w);
            && |out.lookups| == 2
            && out.loaded == None && out.call == NoCall && out.annotationPatch == None
            && out.statusWrite.Some? && ReadyIs(out.statusWrite.value, ConditionFalse, ReasonPending)
            && out.event.Some? && out.event.value.etype == Warning
            && out.metrics == [IssuerNotReadyInc(NamespacedName(cfg.defaultProviderNamespace, w.fetch.cr.issuerRef.name), "issuer not found")]
            && out.exit == Returned(Done, Some(IssuerLookupError(w.getIssuer(out.lookups[1], 1).err)))
  {
  }

  /**
   An issuer that is not ready, or one with no registered provisioner, stops
   the invocation before `Sign` or `Download`: `Ready=False/Pending` and a
   requeue after the not-ready backoff, unless the status patch fails.
   */
  lemma NotReadyGating(cfg: Config, req: NamespacedName, w: World)
    requires Admitted(cfg, w)
    requires var res := ResolutionOf(cfg, req, w.fetch.cr, w);
             res.found.Got? && (!IssuerReady(res.found.status) || res.key !in w.provisioners)
    ensures var out := Reconcile(cfg, req, w);
            && out.call == NoCall && out.annotationPatch == None
            && out.statusWrite.Some? && ReadyIs(out.statusWrite.value, ConditionFalse, ReasonPending)
            && out.statusWrite.value.certificate == w.fetch.cr.status.certificate
            && out.event.Some? && out.event.value.etype == Warning
            && |out.metrics| == 1 && out.metrics[0].IssuerNotReadyInc?
            && out.exit == (if w.statusPatch.Some? then Returned(Done, Some(StatusPatchFailed(w.statusPatch.value)))
                            else Returned(Schedule(false, cfg.backoffProvisionerNotReady), None))
  {
  }

  /**
   Once past the gates, the provisioner is called exactly once: `Download`
   when the request is pending by this controller, `Sign` otherwise. Neither
   is called on any other path.
   */
  lemma ProvisionerCall(cfg: Config, req: NamespacedName, w: World)
    ensures var out := Reconcile(cfg, req, w);
            && (out.call == DownloadCall <==> ReachesProvisioner(cfg, req, w) && RequestPending(w.fetch.cr))
            && (out.call == SignCall <==> ReachesProvisioner(cfg, req, w) && !RequestPending(w.fetch.cr))
  {
  }

  /**
   The download path: a failed or empty download leaves the certificate
   absent, marks `Ready=False/Pending`, counts one pending request and
   requeues after the pending backoff with the download error; a certificate
   is stored with `Ready=True/Issued` and the CA follows the root-CA rule.
   */
  lemma DownloadOutcome(cfg: Config, req: NamespacedName, w: World)
    requires ReachesProvisioner(cfg, req, w) && RequestPending(w.fetch.cr)
    ensures var out := Reconcile(cfg, req, w);
            var cr := w.fetch.cr;
            && out.annotationPatch == None && out.statusWrite.Some?
            && (w.download.DownloadFailed? || |w.download.certPEM| == 0 ==>
                  && out.statusWrite.value.certificate == cr.status.certificate
                  && out.statusWrite.value.ca == cr.status.ca
                  && ReadyIs(out.statusWrite.value, ConditionFalse, ReasonPending)
                  && out.metrics == [RequestsPendingInc(cr.name.name,
                                                        Annotation(cr.annotations, AnnotationCertificateName),
                                                        Annotation(cr.annotations, AnnotationSecretName),
                                                        Annotation(cr.annotations, AnnotationOrderId))]
                  && out.exit == Returned(Schedule(true, cfg.backoffRequestPending),
                                          if w.download.DownloadFailed? then Some(DownloadError(w.download.err)) else None))
            && (w.download.Downloaded? && |w.download.certPEM| > 0 ==>
                  && out.statusWrite.value.certificate == w.download.certPEM
                  && out.statusWrite.value.ca == (if |w.download.caPEM| > 0 && !cfg.disableRootCA then w.download.caPEM else cr.status.ca)
                  && ReadyIs(out.statusWrite.value, ConditionTrue, ReasonIssued)
                  && out.metrics == []
                  && out.exit == Returned(Done, if w.statusPatch.Some? then Some(StatusPatchFailed(w.statusPatch.value)) else None))
  {
  }

  /**
   After a successful `Sign` the acquisition marker is set, each positive CA
   identifier is written in decimal (and reads back as that identifier), and
   no other annotation changes or disappears. When that patch fails, nothing
   is written to the status and the patch error is returned. A nil
   annotation map makes the write panic before any patch.
   */
  lemma AnnotationPatchOutcome(cfg: Config, req: NamespacedName, w: World)
    requires ReachesProvisioner(cfg, req, w) && !RequestPending(w.fetch.cr)
    requires w.sign.Signed?
    ensures var out := Reconcile(cfg, req, w);
            var cr := w.fetch.cr;
            var order := w.sign.order;
            && (cr.annotations.None? ==> out.exit == Panicked && out.annotationPatch == None && out.statusWrite == None)
            && (cr.annotations.Some? ==>
                  && out.annotationPatch.Some?
                  && var p := out.annotationPatch.value;
                     && cr.annotations.value.Keys <= p.Keys
                     && p[AnnotationIssuer] == "true"
                     && (order.id > 0 ==> AnnotationOrderId in p && Decimal.AllDigits(p[AnnotationOrderId])
                                          && Decimal.Parse(p[AnnotationOrderId]) == order.id)
                     && (order.certificateId > 0 ==> AnnotationCertId in p && Decimal.AllDigits(p[AnnotationCertId])
                                                     && Decimal.Parse(p[AnnotationCertId]) == order.certificateId)
                     && (order.id <= 0 ==> (AnnotationOrderId in p <==> AnnotationOrderId in cr.annotations.value))
                     && (order.certificateId <= 0 ==> (AnnotationCertId in p <==> AnnotationCertId in cr.annotations.value))
                     && (forall k :: k in cr.annotations.value && k !in {AnnotationIssuer, AnnotationOrderId, AnnotationCertId}
                                     ==> p[k] == cr.annotations.value[k]))
            && (cr.annotations.Some? && w.annotationPatch.Some? ==>
                  && out.statusWrite == None && out.event == None
                  && out.exit == Returned(Done, Some(AnnotationPatchFailed(w.annotationPatch.value))))
  {
    var order := w.sign.order;
    if order.id > 0 {
      Decimal.ParseFormat(order.id);
    }
    if order.certificateId > 0 {
      Decimal.ParseFormat(order.certificateId);
    }
  }

  /**
   The `Sign` outcomes are exhaustive and exclusive: a sign error gives
   `Ready=False/Failed` and returns the status patch error, not the sign
   error; after a successful annotation patch a certificate gives
   `Ready=True/Issued`, an assigned certificate id alone gives
   `Ready=False/Pending` with a requeue after the not-ready backoff, and
   anything else gives `Ready=Unknown/Failed`.
   */
  lemma SignOutcome(cfg: Config, req: NamespacedName, w: World)
    requires ReachesProvisioner(cfg, req, w) && !RequestPending(w.fetch.cr)
    ensures var out := Reconcile(cfg, req, w);
            var cr := w.fetch.cr;
            var statusErr := if w.statusPatch.Some? then Some(StatusPatchFailed(w.statusPatch.value)) else None;
            && (w.sign.SignFailed? ==>
                  && out.annotationPatch == None && out.statusWrite.Some?
                  && ReadyIs(out.statusWrite.value, ConditionFalse, ReasonFailed)
                  && out.exit == Returned(Done, statusErr))
            && (w.sign.Signed? && cr.annotations.Some? && w.annotationPatch.None? ==>
                  && out.statusWrite.Some?
                  && var st := out.statusWrite.value;
                     && (|w.sign.certPEM| > 0 ==>
                           && st.certificate == w.sign.certPEM
                           && st.ca == (if |w.sign.caPEM| > 0 && !cfg.disableRootCA then w.sign.caPEM else cr.status.ca)
                           && ReadyIs(st, ConditionTrue, ReasonIssued)
                           && out.exit == Returned(Done, statusErr))
                     && (|w.sign.certPEM| == 0 && w.sign.order.certificateId > 0 ==>
                           && st.certificate == cr.status.certificate
                           && ReadyIs(st, ConditionFalse, ReasonPending)
                           && out.exit == Returned(Schedule(true, cfg.backoffProvisionerNotReady), statusErr))
                     && (|w.sign.certPEM| == 0 && w.sign.order.certificateId <= 0 ==>
                           && st.certificate == cr.status.certificate
                           && ReadyIs(st, ConditionUnknown, ReasonFailed)
                           && out.exit == Returned(Done, statusErr)))
  {
  }

  /**
   Every status write is reported by exactly one event with the written Ready
   condition's reason and message, and the event is a warning exactly when
   that condition is False.
   */
  lemma EventMatchesStatus(cfg: Config, req: NamespacedName, w: World)
    ensures var out := Reconcile(cfg, req, w);
            && (out.statusWrite.Some? <==> out.event.Some?)
            && (out.event.Some? ==>
                  exists s :: Condition(ConditionReady, s, out.event.value.reason, out.event.value.message) in out.statusWrite.value.conditions
                              && (s == ConditionFalse <==> out.event.value.etype == Warning))
  {
    var out := Reconcile(cfg, req, w);
    if out.event.Some? {
      var e := out.event.value;
      var s := if e.etype == Warning then ConditionFalse
               else if e.reason == ReasonIssued then ConditionTrue
               else ConditionUnknown;
      assert Condition(ConditionReady, s, e.reason, e.message) in out.statusWrite.value.conditions;
    }
  }

  /** With root-CA propagation disabled, no path changes `status.ca`. */
  lemma RootCASuppressed(cfg: Config, req: NamespacedName, w: World)
    requires cfg.disableRootCA && w.fetch.Found?
    ensures var out := Reconcile(cfg, req, w);
            out.statusWrite.Some? ==> out.statusWrite.value.ca == w.fetch.cr.status.ca
  {
  }

  /** A certificate is only ever written together with `Ready=True/Issued`. */
  lemma CertificateOnlyWhenIssued(cfg: Config, req: NamespacedName, w: World)
    requires w.fetch.Found?
    ensures var out := Reconcile(cfg, req, w);
            out.statusWrite.Some? && |out.statusWrite.value.certificate| > 0 ==>
              && out.call != NoCall
              && Condition(ConditionReady, ConditionTrue, ReasonIssued, Text("Certificate issued")) in out.statusWrite.value.conditions
  {
  }

  // ---------------------------------------------------------------------------
  // Successive invocations

  /** An update the event filter drops is one the reconciler would ignore anyway. */
  lemma FilteredUpdatesAreNoOps(cfg: Config, req: NamespacedName, w: World)
    requires w.fetch.Found? && !UpdatePasses(w.fetch.cr)
    ensures NoEffects(Reconcile(cfg, req, w))
    ensures Reconcile(cfg, req, w).exit == Returned(Done, None)
  {
  }

  /**
   Issuance is terminal: once a certificate has been stored, the update event
   that write causes is filtered out, and any later invocation on the stored
   object has no effect.
   */
  lemma IssuedIsTerminal(cfg: Config, req: NamespacedName, w: World, w2: World)
    requires w.fetch.Found? && w.statusPatch.None?
    requires var out := Reconcile(cfg, req, w);
             out.statusWrite.Some? && |out.statusWrite.value.certificate| > 0
    requires w2.fetch == Found(Stored(w.fetch.cr, w, Reconcile(cfg, req, w)))
    ensures !UpdatePasses(w2.fetch.cr)
    ensures NoEffects(Reconcile(cfg, req, w2))
  {
    var out := Reconcile(cfg, req, w);
    CertificateOnlyWhenIssued(cfg, req, w);
    var issued := Condition(ConditionReady, ConditionTrue, ReasonIssued, Text("Certificate issued"));
    var cs := w2.fetch.cr.status.conditions;
    var i :| 0 <= i < |cs| && cs[i] == issued;
    assert RequestStatusTrue(w2.fetch.cr) && RequestIssued(w2.fetch.cr);
  }

  /**
   An order left pending by `Sign` is never ordered again when both patches
   succeed: the next invocation on the stored object either downloads or
   stops before the provisioner.
   */
  lemma NoSecondOrder(cfg: Config, req: NamespacedName, w: World, w2: World)
    requires w.fetch.Found? && w.fetch.cr.annotations.Some?
    requires Reconcile(cfg, req, w).call == SignCall
    requires w.sign.Signed? && |w.sign.certPEM| == 0 && w.sign.order.certificateId > 0
    requires w.annotationPatch.None? && w.statusPatch.None?
    requires w2.fetch == Found(Stored(w.fetch.cr, w, Reconcile(cfg, req, w)))
    ensures Reconcile(cfg, req, w2).call != SignCall
  {
    var out := Reconcile(cfg, req, w);
    ProvisionerCall(cfg, req, w);
    var pending := Condition(ConditionReady, ConditionFalse, ReasonPending, Text("Certificate request pending"));
    var next := w2.fetch.cr;
    assert pending in next.status.conditions;
    var i :| 0 <= i < |next.status.conditions| && next.status.conditions[i] == pending;
    assert RequestPending(next);
    ProvisionerCall(cfg, req, w2);
  }

  /**
   The pending test reads the status as well as the annotations. When the
   annotation patch after a pending `Sign` succeeds but the status patch
   fails, the stored request has the marker but the conditions it had before.
   The next invocation that reaches the provisioner downloads exactly when
   one of those conditions already had reason `Pending` (for instance a
   request held earlier at the not-ready gate); otherwise it calls `Sign`
   again for the same request.
   */
  lemma LostStatusWrite(cfg: Config, req: NamespacedName, w: World, w2: World)
    requires w.fetch.Found?
    requires Reconcile(cfg, req, w).call == SignCall
    requires w.sign.Signed? && |w.sign.certPEM| == 0 && w.sign.order.certificateId > 0
    requires w.annotationPatch.None? && w.statusPatch.Some?
    requires w2.fetch == Found(Stored(w.fetch.cr, w, Reconcile(cfg, req, w)))
    requires ReachesProvisioner(cfg, req, w2)
    ensures Reconcile(cfg, req, w2).call ==
              if w.fetch.cr.annotations.Some? && !NoPendingReason(w.fetch.cr) then DownloadCall else SignCall
  {
    var cr := w.fetch.cr;
    ProvisionerCall(cfg, req, w);
    ProvisionerCall(cfg, req, w2);
    var next := w2.fetch.cr;
    assert next.status == cr.status;
    if cr.annotations.Some? {
      assert Annotation(next.annotations, AnnotationIssuer) == "true";
      assert RequestPending(next) <==> !NoPendingReason(cr);
    } else {
      assert next == cr;
    }
  }

  /**
   A sign error is not terminal for the reconciler: no annotation is written
   and the stored `Ready=False/Failed` condition is not a pending one, so the
   next invocation that reaches the provisioner signs again. This holds
   whatever conditions the request had, including a `Ready=False/Pending`
   left by the not-ready gate.
   */
  lemma SignErrorIsRetried(cfg: Config, req: NamespacedName, w: World, w2: World)
    requires w.fetch.Found?
    requires Reconcile(cfg, req, w).call == SignCall
    requires w.sign.SignFailed?
    requires w2.fetch == Found(Stored(w.fetch.cr, w, Reconcile(cfg, req, w)))
    requires ReachesProvisioner(cfg, req, w2)
    ensures Reconcile(cfg, req, w2).call == SignCall
  {
    var cr := w.fetch.cr;
    var out := Reconcile(cfg, req, w);
    ProvisionerCall(cfg, req, w);
    var next := w2.fetch.cr;
    assert next.annotations == cr.annotations;
    if Annotation(cr.annotations, AnnotationIssuer) == "true" && w.statusPatch.None? {
      var cs := next.status.conditions;
      forall i | 0 <= i < |cs|
        ensures cs[i].reason != ReasonPending
      {
        assert cs[i] in out.statusWrite.value.conditions;
        if cs[i] in cr.status.conditions {
          var j :| 0 <= j < |cr.status.conditions| && cr.status.conditions[j] == cs[i];
        }
      }
    }
    ProvisionerCall(cfg, req, w2);
  }

  /** Every condition with reason `Pending` is the request's one Ready condition. */
  predicate PendingOnlyOnReady(cr: CertificateRequest)
  {
    && AtMostOneOfType(cr.status.conditions, ConditionReady)
    && forall i :: (0 <= i < |cr.status.conditions| && cr.status.conditions[i].reason == ReasonPending)
                   ==> cr.status.conditions[i].ctype == ConditionReady
  }

  /**
   A `Sign` that returns neither a certificate nor a certificate id ends in
   `Ready=Unknown/Failed`, which replaces the Ready condition. When no other
   condition has reason `Pending`, the stored request is not pending, so the
   next invocation that reaches the provisioner signs again.
   */
  lemma EmptySignIsRetried(cfg: Config, req: NamespacedName, w: World, w2: World)
    requires w.fetch.Found? && PendingOnlyOnReady(w.fetch.cr)
    requires Reconcile(cfg, req, w).call == SignCall
    requires w.sign.Signed? && |w.sign.certPEM| == 0 && w.sign.order.certificateId <= 0
    requires w.statusPatch.None?
    requires w2.fetch == Found(Stored(w.fetch.cr, w, Reconcile(cfg, req, w)))
    requires ReachesProvisioner(cfg, req, w2)
    ensures Reconcile(cfg, req, w2).call == SignCall
  {
    var cr := w.fetch.cr;
    var out := Reconcile(cfg, req, w);
    ProvisionerCall(cfg, req, w);
    var next := w2.fetch.cr;
    if cr.annotations.Some? && w.annotationPatch.None? {
      var failed := Condition(ConditionReady, ConditionUnknown, ReasonFailed, Text("Certificate request failed"));
      assert forall c :: c in out.statusWrite.value.conditions && c.ctype == ConditionReady ==> c == failed;
      var cs := next.status.conditions;
      forall i | 0 <= i < |cs|
        ensures cs[i].reason != ReasonPending
      {
        assert cs[i] in out.statusWrite.value.conditions;
        if cs[i].ctype != ConditionReady {
          var j :| 0 <= j < |cr.status.conditions| && cr.status.conditions[j] == cs[i];
        }
      }
    } else {
      assert next == cr;
    }
    ProvisionerCall(cfg, req, w2);
  }
}
