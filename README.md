# cert-manager Vault issuer, modelled in Dafny

This project models the Vault issuer of cert-manager (`pkg/issuer/vault/issue.go`).
Given a Certificate resource, the issuer does the following, in order:

- It picks a private key. It reuses the key stored in the Certificate's secret, or generates a new one when that secret is missing or holds invalid data.
- It refuses a Certificate that names no domain.
- It resolves the subject names. An empty common name falls back to the first DNS name.
- It builds a PEM CSR.
- It authenticates to Vault with either a static token or an AppRole login. A token secret takes precedence over an AppRole secret.
- It posts the CSR to the PKI signing path with a TTL. The TTL is the issuer's duration, or 90 days when that is unset.
- It returns the PEM key and bundle, and records the outcome on the Certificate's Ready condition.

Files:

- `vault_issue.dfy` (module `VaultIssue`): the issuer itself.
  - The straight-line parts are functions: name resolution, TTL defaulting, parameter construction, auth selection, and field extraction from secrets.
  - `ObtainCertificate` follows the source's step-by-step key handling as a method. It is proved equal to the specification function `Obtain`.
  - `Issue` is a method that updates the Certificate's status in place.
- `v1alpha1.dfy` (module `V1alpha1`): the Issuer and Certificate specs. The Certificate is a class whose Ready condition `Issue` updates.
- `strings.dfy`, `durations.dfy`, `paths.dfy`: the Go library functions whose results reach Vault. These are `strings.Join` and `strings.TrimSpace` (with `unicode.IsSpace`), `time.Duration.String`, and `path.Join`.
  - Each is modelled for real, together with a partner. For `Join` the partner is `Split`; for `TrimSpace`, a reference definition of trimming; for the decimal rendering, its inverse; for `path.Clean`, idempotence.

How the outside world is represented:

- Collaborators are the fields of an `Environment`. Their outcomes are given, and each may succeed or fail. They are:
  - reading the stored TLS key;
  - RSA key generation;
  - PKCS#1 encoding;
  - `pki.CommonNameForCertificate` and `pki.DNSNamesForCertificate`;
  - CSR creation and PEM encoding;
  - `vault.NewClient`;
  - the HTTP round trip;
  - reading the token from the login reply;
  - parsing the signing reply into a PEM bundle.
- Every operation that talks to Vault returns a `Call`: its result together with the list of requests it sent. So "no request is made" is a statement about that list.
- Errors are a datatype. `Error.Message` renders exactly the text of the source's `fmt.Errorf` strings. The Ready condition's message is built from it.

Two facts about the errors:

- A certificate without names yields the plain error "no domains specified on certificate"; there is no separate error kind for it.
- Authentication, transport and parsing failures are wrapped errors with distinct messages.

## Model

| member | source | states |
|---|---|---|
| `VaultIssue.Issue` | pkg/issuer/vault/issue.go:45-56 | If obtaining fails: no key and no certificate are returned, the error is returned, and Ready is set to False with reason ErrIssueCert and message "Error issuing TLS certificate: " + the error text. If it succeeds: the obtained key and certificate are returned unchanged, and Ready is set to True with reason CertIssueSuccess and message "Certificate issued successfully". The requests sent are those of obtaining. |
| `V1alpha1.Certificate.UpdateStatusCondition` | pkg/issuer/vault/issue.go:49-53 | The Ready condition becomes exactly the given status, reason and message. |
| `VaultIssue.ObtainCertificate` | pkg/issuer/vault/issue.go:58-84 | The step-by-step procedure (lookup, possible regeneration, error check, names check, signing) returns exactly what `Obtain` specifies, and sends exactly the requests `Obtain` specifies. |
| `VaultIssue.Obtain` | pkg/issuer/vault/issue.go:58-84 | A key error is reported before the names are checked, and no request is sent. A certificate with neither a common name nor DNS names fails with NoDomains and sends nothing. Otherwise the chosen key signs, and its PKCS#1 encoding is returned with the bundle. A stored key that could be read is the key returned. |
| `VaultIssue.ChooseKey` | pkg/issuer/vault/issue.go:60-70 | A readable stored key is reused as it is. NotFound or InvalidData leads to the generated key, or to "error generating private key: …" if generation failed. Any other lookup error becomes "error getting certificate private key: …". |
| `VaultIssue.ResolveNames` | pkg/issuer/vault/issue.go:89-101 | A common-name lookup failure is reported first, then a DNS-name lookup failure, each with its own context. On success the alt names are the DNS names. The common name is the first DNS name when the common name is empty and DNS names exist; otherwise it is the common name unchanged. |
| `VaultIssue.CsrPem` | pkg/issuer/vault/issue.go:103-115 | The CSR is created from a template that carries the resolved names and the organization "cert-manager". A CSR is produced if and only if it can be both created and PEM-encoded, and it is then that PEM block. A creation failure is reported as "error creating x509 certificate"; an encoding failure after a successful creation is reported as "error encoding certificate request". |
| `VaultIssue.SignCertificate` | pkg/issuer/vault/issue.go:88-118 | Nothing is sent to Vault when name resolution or CSR construction fails. Otherwise the result is the Vault signing call for the resolved names and that CSR. |
| `VaultIssue.SigningRequestCarriesNames` | pkg/issuer/vault/issue.go:99-117 | Once the client is ready and the CSR is built, signing sends exactly one request, after those of client initialisation. That request is a POST to the signing path, and its body has exactly the five parameter keys. Its common_name is altNames[0] when the common name is empty and alt names exist, and the common name otherwise. Its alt_names is the comma-join of the DNS names, its ttl is the rendered TTL, and its exclude_cn_from_sans is "true". Its csr is the PEM encoding of the CSR that was created, with that key, for the same common name and DNS names. |
| `VaultIssue.RequestVaultCert` | pkg/issuer/vault/issue.go:194-248 | A client initialisation failure is passed on with the initialisation's requests and nothing more. Otherwise exactly one signing request is appended to those requests. A failed round trip is reported as "error calling Vault server". A reply is turned into the certificate exactly as `SignedBundle` states. A successful result implies that client initialisation succeeded and that Vault answered that signing request. |
| `VaultIssue.SignedBundle` | pkg/issuer/vault/issue.go:237-247 | The certificate is returned if and only if the reply parses into a PKI bundle and that bundle converts to a certificate bundle. It is then the PEM rendering of that bundle. A parse failure is reported as "unable to parse certificate", and a conversion failure as "unable to convert certificate bundle to PEM bundle". |
| `VaultIssue.CertDuration` | pkg/issuer/vault/issue.go:202-205 | The TTL is never 0. It is 90 days (24*90 hours) when the issuer's duration is 0, and exactly the issuer's duration otherwise. |
| `VaultIssue.DefaultTtlString` | pkg/issuer/vault/issue.go:36-38 | The 90-day default is sent as the ttl "2160h0m0s". |
| `VaultIssue.SignParameters` | pkg/issuer/vault/issue.go:207-213 | The parameter map has exactly the keys common_name, alt_names, ttl, csr and exclude_cn_from_sans. alt_names is the comma-join of the alt names in order (empty for none), ttl is the duration's Go rendering, and exclude_cn_from_sans is "true". |
| `VaultIssue.AltNamesRecoverable` | pkg/issuer/vault/issue.go:209 | Splitting alt_names on commas gives back the alt names, when there is at least one and none contains a comma. |
| `VaultIssue.SigningPath` | pkg/issuer/vault/issue.go:215 | The signing URL path is rooted. |
| `VaultIssue.SigningPathPlain` | pkg/issuer/vault/issue.go:215 | A configured path made of plain segments is used unchanged below "/v1". |
| `VaultIssue.SigningRequest` | pkg/issuer/vault/issue.go:215-219 | The request is a POST to the signing path, with the client's address and token and the parameter map for the issuer's TTL. |
| `VaultIssue.InitVaultClient` | pkg/issuer/vault/issue.go:120-151 | A client creation failure is reported and nothing is sent. The client's address is the configured server. With a token secret set, no request is sent and the AppRole reference is not consulted; the token comes from that secret, or its error is wrapped with "error reading Vault token from secret ns/name". Otherwise, with an AppRole secret set, the login's requests and token are used. With neither set, client initialisation fails with "… tokenSecretRef or appRoleSecretRef not set" and sends nothing. At most one request is sent. |
| `VaultIssue.TokenTakesPrecedence` | pkg/issuer/vault/issue.go:128-137 | When the token secret name is non-empty, changing the AppRole reference does not change the outcome of client initialisation. |
| `VaultIssue.SelectAuth` | pkg/issuer/vault/issue.go:128-150 | Token auth is chosen if and only if the token secret name is non-empty. AppRole auth is chosen if and only if the token name is empty and the AppRole name is non-empty. Neither is chosen if and only if both are empty. The chosen method carries that secret's name. |
| `VaultIssue.RequestTokenWithAppRoleRef` | pkg/issuer/vault/issue.go:153-192 | An unreadable AppRole secret is reported with its context, and nothing is sent. Otherwise exactly one login request is sent. If the login's round trip fails, the result is "error calling Vault server". If the token cannot be read from the reply, the result is "unable to read token". If it can, that token is returned. Conversely, a token is returned only if the round trip succeeded and the token was read from its reply. |
| `VaultIssue.LoginRequest` | pkg/issuer/vault/issue.go:159-166 | The login is a POST to /v1/auth/approle/login whose body has exactly the keys role_id and secret_id, carrying the two secret values. |
| `VaultIssue.AppRoleRef` | pkg/issuer/vault/issue.go:250-273 | It succeeds if and only if the secret exists and has both roleId and secretId. A missing secret is NotFound. A missing roleId is reported before a missing secretId, each error naming its field, namespace and secret. The returned values are the stored values with surrounding white space trimmed. |
| `VaultIssue.VaultTokenRef` | pkg/issuer/vault/issue.go:275-290 | It succeeds if and only if the secret exists and has a token field. A missing secret is NotFound, and a missing field is an error naming "token". The returned value is the stored value trimmed. |
| `VaultIssue.Error.Message` | pkg/issuer/vault/issue.go:64-283 | Renders the text of each error the issuer produces. A wrapped error reads "<context>: " followed by its cause's message. |
| `VaultIssue.MessageEndsWithRoot` | pkg/issuer/vault/issue.go:64-283 | Every error message ends with the message of the innermost, unwrapped error. |
| `VaultIssue.FailureMessageNamesCause` | pkg/issuer/vault/issue.go:48 | The Ready message written on failure starts with "Error issuing TLS certificate: " and ends with the text of the underlying failure. |
| `Strings.TrimSpace` | pkg/issuer/vault/issue.go:261-262 | The result is the stored value with its leading and trailing white space (per unicode.IsSpace) removed, as defined independently by IsTrimOf. |
| `Strings.TrimOfUnique` | pkg/issuer/vault/issue.go:269-270 | There is only one trimming of a string, so TrimSpace is determined by its contract. |
| `Strings.TrimSpaceIdempotent` | pkg/issuer/vault/issue.go:286-287 | Trimming an already trimmed value changes nothing. |
| `Strings.Join` | pkg/issuer/vault/issue.go:209 | Joining no names gives "", joining one name gives that name, and the result starts with the first name. |
| `Strings.SplitJoin` | pkg/issuer/vault/issue.go:209 | Split undoes Join for a non-empty list whose elements do not contain the separator. |
| `Strings.JoinSplit` | pkg/issuer/vault/issue.go:209 | Join undoes Split for every string. |
| `Durations.DurationString` | pkg/issuer/vault/issue.go:210 | Go's Duration.String: never empty, always ends in 's', and starts with '-' exactly for negative durations. |
| `Durations.WholeHoursString` | pkg/issuer/vault/issue.go:210 | A positive whole number of hours h is rendered "<h>h0m0s". |
| `Durations.DecimalRoundTrip` | pkg/issuer/vault/issue.go:210 | Reading back the decimal digits rendered for a number gives that number. |
| `Paths.JoinRooted` | pkg/issuer/vault/issue.go:215 | path.Join under a rooted directory gives a rooted path. |
| `Paths.CleanRootedIdempotent` | pkg/issuer/vault/issue.go:215 | Cleaning a cleaned path changes nothing. |
| `Paths.JoinRootedSimple` | pkg/issuer/vault/issue.go:215 | Joining plain segments under a rooted, plain directory is plain concatenation, and a trailing empty element is dropped. |

## Left out

- `test/e2e/certificate/certificate_acme.go` is an end-to-end test harness against a live cluster and ACME server. It has no logic of this component, and it is not modelled.
- The following are collaborators in `Environment`, not modelled: RSA key generation (randomness), `x509.CreateCertificateRequest`, PEM encoding, PKCS#1 encoding, `kube.SecretTLSKey`, `pki.CommonNameForCertificate`, `pki.DNSNamesForCertificate`, `vault.NewClient`, `RawRequest`, `TokenID`, `certutil.ParsePKIMap`, `ToCertBundle` and `ToPEMBundle`. Their source is not part of this model.
- `pki.GenerateCSR` (issue.go:103) is not part of this model. The model builds the CSR template itself: the common name as the subject, the DNS names as SANs, and the organization "cert-manager". This assumes that `GenerateCSR` puts exactly those names into the template.
- `DecodeJSON` (issue.go:180-184, 231-235): its result is discarded, and the `err` tested afterwards is the one from `RawRequest`, which is already nil there. The "unable to decode JSON payload" branches therefore cannot be taken, and the model has no such error. A decoding failure shows up only through what `tokenID` or `parsePKIMap` then return.
- `SetJSONBody` (issue.go:168-171, 219-222): it encodes a map of strings, which cannot fail. The "error encoding Vault parameters" branches are not modelled.
- The error returned by `client.SetAddress` is ignored by the source. The model always sets the address. The client token before login comes from `newClient` (Vault's default configuration).
- `glog` logging (issue.go:200) and the unused `ctx` parameter are not modelled.
- The constant `errorGetCertKeyPair` (issue.go:26) is unused in this file.
- V1alpha1.Certificate.UpdateStatusCondition: its source is not part of this model. Only the Ready condition is kept: its last-transition timestamp and any other conditions are not modelled.
- VaultIssue.Error.Message: `%q` quoting is modelled as plain double quotes. The quoted values are fixed field names or Kubernetes object names, which contain no characters Go would escape.
- VaultIssue.VaultTokenRef and VaultIssue.AppRoleRef: secret data is modelled as decoded text. Go converts the stored bytes with `string(...)`, and UTF-8 decoding of invalid byte sequences is not modelled. The lister is an in-memory map, so the only lookup error is NotFound.
- Paths.JoinRooted: models `path.Join` only for a rooted first element, the only form the issuer uses ("/v1").
- The secret lister is a map for the issuer's resource namespace only. The Certificate's own key lookup goes through the `secretTLSKey` collaborator.
