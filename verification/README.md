# CertificateRequest reconciler of digicert-issuer, in Dafny

This project models the decision logic of the digicert-issuer controller that
signs cert-manager `CertificateRequest`s through DigiCert. One invocation of
`Reconcile` is a pure function, `Reconciler.Reconcile(cfg, req, w)`:

- `cfg` holds the reconciler's configuration: the API group it serves, the
  default provider namespace, the two backoff durations and `DisableRootCA`.
- `w` (a `World`) holds the answer of every call the controller makes outside
  itself:
  - the fetch of the request;
  - each issuer `Get`, as a function of the kind and namespaced name asked for
    and of whether it is the first lookup or the fallback, so that a fallback
    to the same key can get a different answer;
  - the set of identities the provisioner registry can `Load`;
  - the provisioner's `Sign` and `Download` results;
  - the errors of the annotation merge patch and the status merge patch.
- The result (an `Outcome`) records:
  - which issuers were looked up, and whether the registry was consulted;
  - whether `Sign` or `Download` was called;
  - the annotation patch and the status write that were sent;
  - the event type and the metric increments;
  - the returned `ctrl.Result` and error, or a panic.

The modules follow the controller's structure:

- `Api`: the request, issuer-condition and message types, and the constants
  for condition types, reasons and annotation keys.
- `Conditions`: the four condition predicates. Each is defined once as a
  quantified statement, and each loop the controller runs is proved to decide
  exactly that statement. The module also has the update-event filter and the
  replacement of the Ready condition.
- `Fold`: the case-insensitive kind comparison (`strings.EqualFold`).
- `Decimal`: the `%d` rendering of the CA order and certificate ids, with the
  round trip back to the number.
- `Reconciler`: the reconcile function, the `setStatus` step, issuer
  resolution with the namespace fallback, and the annotation patch.
- `Properties`: one lemma per branch of the reconciler, plus lemmas about two
  successive invocations on the object that the first one left in the store.

Details of the code that the model keeps as written:

- The fallback lookup replaces the namespace with the default provider
  namespace for both issuer variants, including the cluster-scoped one.
- When the fallback lookup also fails, the lookup error is returned with an
  empty `ctrl.Result`. There is no requeue delay.
- The pending test looks for reason `Pending` on any condition, not only on
  the Ready condition.
- After a `Sign` error, the error returned is the status patch error. The
  sign error is not returned.
- Both requeues that follow a pending CA order set `Requeue: true` as well as
  `RequeueAfter`.
- A nil annotation map makes the annotation write after a successful `Sign`
  panic. The model shows this as `Exit.Panicked`.

`Properties.LostStatusWrite` makes one behaviour explicit. Suppose the
annotation patch after a pending `Sign` succeeds but the status patch fails.
The stored request then carries the acquisition annotation, but its
conditions are the ones it had before the `Sign`. If none of those had reason
`Pending`, the next invocation that reaches the provisioner calls `Sign`
again for the same request. If one did, for instance a `Ready=False/Pending`
left earlier by the not-ready gate, the next invocation calls `Download`.
The pending test needs both the annotation and the reason, so this follows
directly from that test.

## Model

| member | source | states |
|---|---|---|
| `Reconciler.Reconcile` | controllers/certmanager/certificaterequest_controller.go:83-237 | A deleted request is ignored and a failed fetch returns its error, both with no effects. `Sign` or `Download` is called only with a provisioner the registry holds. Every status write comes with an event. Annotations are patched only on the `Sign` path. |
| `Properties.ShortCircuit` | controllers/certmanager/certificaterequest_controller.go:98-110 | A request of another issuer group, or one whose status already has a certificate, gets no lookup, no patch, no event and no provisioner call. It returns done with no error. |
| `Reconciler.ResolveIssuer` | controllers/certmanager/certificaterequest_controller.go:112-139 | The variant is cluster-scoped exactly when the kind equals `ClusterDigicertIssuer` up to case. The first lookup uses an empty namespace for that variant and the request's namespace otherwise. The second lookup happens exactly when the first fails, and it uses the default provider namespace. The issuer identity in effect is the last one looked up, and the issuer found is that lookup's own answer. |
| `Properties.IssuerLookups` | controllers/certmanager/certificaterequest_controller.go:116-132 | For an admitted request, the lookups the invocation makes are exactly the first key, plus the default-namespace key when the first lookup failed. |
| `Properties.SameKeyFallback` | controllers/certmanager/certificaterequest_controller.go:121-132 | A namespaced issuer requested from the default provider namespace is looked up twice under the same key when the first `Get` fails. If that second `Get` finds a ready issuer with a registered provisioner, `Sign` or `Download` is called. |
| `Properties.IssuerNotFoundOutcome` | controllers/certmanager/certificaterequest_controller.go:129-138 | When both lookups fail, the result is `Ready=False/Pending` with a warning event and one "issuer not found" count for the default-namespace identity. There is no provisioner call, and it returns done with the second lookup's error. |
| `Properties.NotReadyGating` | controllers/certmanager/certificaterequest_controller.go:141-159 | An issuer that is not ready, or one without a registered provisioner, gets no `Sign` or `Download`. The status becomes `Ready=False/Pending`, the certificate is unchanged, a warning event is recorded and one not-ready count is made. The result is a requeue after the not-ready backoff, or the status patch error if that patch fails. |
| `Properties.ProvisionerCall` | controllers/certmanager/certificaterequest_controller.go:150-188 | `Download` is called exactly when the invocation gets past the gates and the request is pending by this controller. `Sign` is called exactly when it gets past the gates and the request is not pending. The two are never both called. |
| `Properties.DownloadOutcome` | controllers/certmanager/certificaterequest_controller.go:161-185 | A failed or empty download keeps the certificate and CA, sets `Ready=False/Pending`, makes one pending count with the request's labels, and requeues after the pending backoff with the download error. A downloaded certificate is stored with `Ready=True/Issued`. The CA is copied only when it is non-empty and root-CA propagation is enabled. |
| `Reconciler.PatchAnnotations` | controllers/certmanager/certificaterequest_controller.go:200-209 | The marker `digicert-issuer` is set to `"true"`. The order id and cert id are added in decimal only when positive. No other key is added, and every other value is unchanged. |
| `Properties.AnnotationPatchOutcome` | controllers/certmanager/certificaterequest_controller.go:200-213 | After a successful `Sign`, the patch keeps every existing key and sets the marker. Each positive id is written as digits that parse back to that id. If the patch fails, nothing is written to the status and the patch error is returned. A nil annotation map panics before any patch. |
| `Properties.SignOutcome` | controllers/certmanager/certificaterequest_controller.go:187-236 | Four exclusive outcomes. A sign error gives `Ready=False/Failed` with no annotation patch, and returns the status patch error. A certificate gives `Ready=True/Issued`, stores the certificate and returns done. An empty certificate with a positive certificate id gives `Ready=False/Pending` and a requeue after the not-ready backoff. Any other result gives `Ready=Unknown/Failed` and returns done. |
| `Reconciler.SetStatus` | controllers/certmanager/certificaterequest_controller.go:290-302 | The Ready condition with the given status, reason and message is present afterwards. It overwrites the first Ready condition in place, or is appended when there is none. When the request had at most one Ready condition, the new one is the only Ready condition afterwards. Other condition types and the certificate and CA are kept. The event is a warning exactly when the status is False, and it carries the same reason and message. The patch error is returned. |
| `Properties.EventMatchesStatus` | controllers/certmanager/certificaterequest_controller.go:290-302 | Every invocation that writes a status emits exactly one event, and every event comes with a status write. The event matches the written Ready condition's reason and message, and it is a warning exactly when that condition is False. |
| `Properties.RootCASuppressed` | controllers/certmanager/certificaterequest_controller.go:178-220 | With `DisableRootCA`, no path changes `status.ca`. |
| `Properties.CertificateOnlyWhenIssued` | controllers/certmanager/certificaterequest_controller.go:178-221 | A status write carrying a certificate comes only from a provisioner call and always includes the Ready condition `True/Issued` "Certificate issued". |
| `Conditions.ScanIssuerReady` | controllers/certmanager/certificaterequest_controller.go:239-252 | The loop returns true exactly when the status block is present and some condition is `Ready=True`. |
| `Conditions.ScanPending` | controllers/certmanager/certificaterequest_controller.go:254-266 | The loop returns true exactly when the `digicert-issuer` annotation is `"true"` and some condition of any type has reason `Pending`. |
| `Conditions.ScanIssued` | controllers/certmanager/certificaterequest_controller.go:268-278 | The loop returns true exactly when some condition has reason `Issued`. |
| `Conditions.ScanStatusTrue` | controllers/certmanager/certificaterequest_controller.go:280-288 | The loop returns true exactly when some condition has status `True`. |
| `Conditions.FilterUpdate` | controllers/certmanager/certificaterequest_controller.go:59-65 | An update event is dropped exactly when some condition is `True`, some condition has reason `Issued`, and the certificate is non-empty. |
| `Conditions.SetCondition` | controllers/certmanager/certificaterequest_controller.go:292 | The new condition is present. Every condition is either the new one or an old one. Every condition of another type survives. The list keeps its length when a condition of that type existed, and otherwise grows by one. |
| `Conditions.SetConditionPlacement` | controllers/certmanager/certificaterequest_controller.go:292 | The new condition takes the position of the first condition of its type, with every other position unchanged. When no condition of that type exists, it is appended. |
| `Conditions.SetConditionReplaces` | controllers/certmanager/certificaterequest_controller.go:292 | If at most one condition had the new condition's type, then afterwards at most one does, and it is the new condition. |
| `Properties.FilteredUpdatesAreNoOps` | controllers/certmanager/certificaterequest_controller.go:59-65 | Any update the event filter drops is one the reconciler would have finished with no effects. |
| `Properties.IssuedIsTerminal` | controllers/certmanager/certificaterequest_controller.go:105-110 | After a certificate has been stored, the filter drops the update of the stored object. Any later invocation on that object has no effects. |
| `Properties.NoSecondOrder` | controllers/certmanager/certificaterequest_controller.go:200-224 | After a `Sign` that left the order pending with both patches accepted, the next invocation on the stored request never calls `Sign`. |
| `Properties.LostStatusWrite` | controllers/certmanager/certificaterequest_controller.go:200-224 | After a pending `Sign`, suppose the annotation patch is accepted but the status patch is not. The next invocation that reaches the provisioner calls `Download` exactly when the request had annotations and some condition already had reason `Pending` before the `Sign`. Otherwise it calls `Sign` again. |
| `Properties.SignErrorIsRetried` | controllers/certmanager/certificaterequest_controller.go:188-197 | After a sign error, whatever conditions the request had, the stored request is not pending. The next invocation that reaches the provisioner signs again. |
| `Properties.EmptySignIsRetried` | controllers/certmanager/certificaterequest_controller.go:200-232 | After a `Sign` that returns neither a certificate nor a certificate id, the stored request is not pending. This needs the status patch to succeed, and every condition with reason `Pending` to be the request's single Ready condition. The next invocation that reaches the provisioner then signs again. |
| `Fold.EqualFoldAscii` | controllers/certmanager/certificaterequest_controller.go:116 | The comparison loop against an ASCII kind name decides exactly equality up to simple case folding. |
| `Decimal.Format` | controllers/certmanager/certificaterequest_controller.go:203-208 | The decimal rendering is non-empty and all digits. It has no leading zero unless the value is 0. |
| `Decimal.ParseFormat` | controllers/certmanager/certificaterequest_controller.go:203-208 | Reading the rendered digits back gives the original number. |
| `Decimal.FormatInjective` | controllers/certmanager/certificaterequest_controller.go:203-208 | Distinct ids give distinct annotation values. |

## Left out

- The Kubernetes client is reduced to success or failure answers. This covers `Get`, `Patch` and `Status().Patch`, their merge-patch semantics, and the refresh of the working copy from the patch response.
- Controller-runtime wiring, the work queue and its concurrency are left out. So are context cancellation and the recovery of panics.
- Condition timestamps are left out. Event and condition message texts are kept as their `fmt.Sprintf` arguments (`Api.Message`) and never rendered.
- Logging is left out. The Prometheus counters appear only as increments with their label values.
- The provisioner registry and DigiCert's `Sign`/`Download` are inputs, because their code is not part of this model. So is the issuer `Get` from `pkg/k8sutils`.
- `certmanagerv1beta1.GroupVersion.Group` is defined in a file that is not part of this model. It is the configuration field `Config.group`.
- The values of `certmanagerv1beta1.ClusterDigicertIssuerKind`, `certmanagerv1beta1.ConditionReady` and `certmanagerv1beta1.ConditionTrue` are also defined in files that are not part of this model. They are taken as `"ClusterDigicertIssuer"` (the type name in `apis/certmanager/v1beta1/zz_generated.deepcopy.go`), `"Ready"` and `True`. The cert-manager constants for the Ready condition type and the `Pending`, `Issued` and `Failed` reasons come from a library that is not part of this model either.
- `Conditions.SetCondition` follows cert-manager's `SetCertificateRequestCondition`, which is not part of this model. It replaces the first condition of the same type, or appends one. Its position is stated by `Conditions.SetConditionPlacement`.
- Condition statuses are the closed set True/False/Unknown. A condition status string outside that set is not modelled.
- `Fold.EqualFoldAscii`: decides `strings.EqualFold` only against an ASCII pattern. That is the only use in the reconciler.
- `apis/certmanager/v1beta1/zz_generated.deepcopy.go` is left out, because a deep copy of a value type is the value itself.
- Durations are natural numbers. The type assertion on the updated object in the event filter is left out.
