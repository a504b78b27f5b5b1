/**
 The resource types the reconciler reads and writes: a snapshot of a
 cert-manager CertificateRequest, the conditions of a DigicertIssuer, and the
 string constants (condition types, reasons, annotation keys) that form the
 wire-level contract with other tooling.
 */
module Api {

  /** The conventional optional value; `None` also stands for a Go nil pointer or nil map. */
  datatype Option<+T> = None | Some(value: T)

  newtype byte = x: int | 0 <= x < 256

  /** PEM data as it travels through the status block. */
  type Bytes = seq<byte>

  /** An opaque Go error value, identified by the text `err.Error()` would give. */
  datatype Err = Err(text: string)

  /** The tri-state status of a Kubernetes condition. */
  datatype ConditionStatus = ConditionTrue | ConditionFalse | ConditionUnknown

  /** A namespace/name pair identifying an object in the store. */
  datatype NamespacedName = NamespacedName(namespace: string, name: string)

  /** The two issuer variants: namespaced `DigicertIssuer` and cluster-scoped `ClusterDigicertIssuer`. */
  datatype IssuerVariant = NamespacedIssuer | ClusterIssuer

  /** What one issuer `Get` is asked for: the variant decides the resource kind, the name the object. */
  datatype IssuerKey = IssuerKey(variant: IssuerVariant, name: NamespacedName)

  /**
   Condition and event messages. The reconciler formats these with
   `fmt.Sprintf`; the model keeps the arguments instead of the rendered text.
   Conditions found in the store carry `Text`.
   */
  datatype Message =
    | Text(text: string)
    | IssuerNotFound(variant: IssuerVariant, key: NamespacedName, err: Err)
    | IssuerNotReady(variant: IssuerVariant, key: NamespacedName)
    | ProvisionerNotFound(variant: IssuerVariant, key: NamespacedName)
    | SignError(err: Err)

  /** A condition of a CertificateRequest (timestamps are not modelled). */
  datatype Condition = Condition(ctype: string, status: ConditionStatus, reason: string, message: Message)

  /** A condition of a DigicertIssuer or ClusterDigicertIssuer. */
  datatype IssuerCondition = IssuerCondition(ctype: string, status: ConditionStatus)

  /** `spec.issuerRef` of a CertificateRequest. */
  datatype IssuerRef = IssuerRef(group: string, kind: string, name: string)

  /** `status` of a CertificateRequest. */
  datatype RequestStatus = RequestStatus(conditions: seq<Condition>, certificate: Bytes, ca: Bytes)

  /** A CertificateRequest; `annotations == None` is a nil annotation map. */
  datatype CertificateRequest = CertificateRequest(
    name: NamespacedName,
    annotations: Option<map<string, string>>,
    issuerRef: IssuerRef,
    status: RequestStatus)

  const ConditionReady := "Ready"
  const ReasonPending := "Pending"
  const ReasonIssued := "Issued"
  const ReasonFailed := "Failed"

  const ClusterDigicertIssuerKind := "ClusterDigicertIssuer"

  const AnnotationIssuer := "certmanager.cloud.sap/digicert-issuer"
  const AnnotationOrderId := "certmanager.cloud.sap/digicert-order-id"
  const AnnotationCertId := "certmanager.cloud.sap/digicert-cert-id"
  const AnnotationCertificateName := "cert-manager.io/certificate-name"
  const AnnotationSecretName := "cert-manager.io/private-key-secret-name"

  /** Go's map index on annotations: a missing key, or a nil map, reads as "". */
  function Annotation(annotations: Option<map<string, string>>, key: string): string
  {
    if annotations.Some? && key in annotations.value then annotations.value[key] else ""
  }
}
