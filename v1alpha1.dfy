/** The parts of the cert-manager resources (API group certmanager, version
    v1alpha1) that the Vault issuer reads or writes. */
module V1alpha1 {
  import opened Durations

  /** A reference to a secret in the issuer's resource namespace. */
  datatype SecretRef = SecretRef(name: string)

  /** How the issuer authenticates to Vault: a secret holding a static token,
      or a secret holding an AppRole role id and secret id. An empty name
      means "not set". */
  datatype VaultAuth = VaultAuth(tokenSecretRef: SecretRef, appRoleSecretRef: SecretRef)

  /** Server address, the PKI signing path below "/v1", and authentication. */
  datatype VaultConfig = VaultConfig(server: string, path: string, auth: VaultAuth)

  /** The Vault issuer's spec; a zero duration means "use the default". */
  datatype IssuerSpec = IssuerSpec(duration: Duration, vault: VaultConfig)

  /** What a Certificate asks for: a common name, DNS names (ordered) and the
      name of the secret that holds (or will hold) its key and certificate. */
  datatype CertificateSpec = CertificateSpec(commonName: string, dnsNames: seq<string>, secretName: string)

  datatype ConditionStatus = ConditionTrue | ConditionFalse | ConditionUnknown

  /** The Ready condition of a Certificate. */
  datatype Condition = Condition(status: ConditionStatus, reason: string, message: string)

  /** A Certificate resource. Its metadata and spec are fixed while it is
      issued; its status (the Ready condition) is updated in place. */
  class Certificate {
    const namespace: string
    const spec: CertificateSpec
    var ready: Condition

    constructor (namespace: string, spec: CertificateSpec)
      ensures this.namespace == namespace && this.spec == spec
      ensures ready == Condition(ConditionUnknown, "", "")
    {
      this.namespace := namespace;
      this.spec := spec;
      ready := Condition(ConditionUnknown, "", "");
    }

    /** Sets the Ready condition to the given status, reason and message. */
    method UpdateStatusCondition(status: ConditionStatus, reason: string, message: string)
      modifies this
      ensures ready == Condition(status, reason, message)
    {
      ready := Condition(status, reason, message);
    }
  }
}
