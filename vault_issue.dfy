/** The Vault issuer (pkg/issuer/vault/issue.go): obtaining a key, building
    a signing request for Vault's PKI secrets engine, authenticating to Vault
    and recording the outcome on the Certificate's Ready condition.

    Key generation, CSR creation, PEM encoding, the Kubernetes key lookup, the
    Vault HTTP round trip and bundle parsing are collaborators whose outcomes
    are given by an `Environment`. The network effect of an operation is the
    list of requests it sends to Vault, returned next to its result. */
module VaultIssue {
  import Strings
  import Paths
  import opened Durations
  import opened V1alpha1

  // Reasons and messages recorded on the Ready condition.
  const ErrorIssueCert: string := "ErrIssueCert"
  const SuccessCertIssued: string := "CertIssueSuccess"
  const MessageErrorIssueCert: string := "Error issuing TLS certificate: "
  const MessageCertIssued: string := "Certificate issued successfully"

  /** 90 days, used when the issuer does not set a duration. */
  const CertificateDuration: Duration := Hour * 24 * 90
  const DefaultOrganization: string := "cert-manager"
  const KeyBitSize: nat := 2048

  /** Names of the secret fields read by the issuer. */
  const TokenField: string := "token"
  const RoleIdField: string := "roleId"
  const SecretIdField: string := "secretId"

  const LoginPath: string := "/v1/auth/approle/login"

  type Bytes = seq<bv8>

  /** The errors the issuer produces or passes on. `Message` renders the
      text Go's `err.Error()` gives for each. */
  datatype Error =
    | SecretNotFound(name: string)
    | InvalidData(text: string)
    | MissingSecretField(field: string, namespace: string, secret: string)
    | NoDomains
    | AuthNotConfigured
    | External(text: string)
    | Wrapped(context: string, cause: Error)
  {
    /** The innermost cause: the error that was not wrapped. */
    function Root(): (e: Error)
      ensures !e.Wrapped?
    {
      if Wrapped? then cause.Root() else this
    }

    function Message(): (m: string)
      // A wrapped error reads "<context>: <cause's message>".
      ensures Wrapped? ==> |context| + 2 <= |m| && m[..|context| + 2] == context + ": "
      ensures Wrapped? ==> Strings.EndsWith(m, cause.Message())
    {
      match this
      case SecretNotFound(name) => "secret \"" + name + "\" not found"
      case InvalidData(text) => text
      case MissingSecretField(field, ns, secret) =>
        "no data for \"" + field + "\" in secret '" + ns + "/" + secret + "'"
      case NoDomains => "no domains specified on certificate"
      case AuthNotConfigured => "error initializing Vault client. tokenSecretRef or appRoleSecretRef not set"
      case External(text) => text
      case Wrapped(context, cause) => context + ": " + cause.Message()
    }
  }

  /** Every message ends with the text of the error that started it, so
      the Ready condition always names the underlying failure. */
  lemma {:induction false} MessageEndsWithRoot(e: Error)
    ensures Strings.EndsWith(e.Message(), e.Root().Message())
  {
    if e.Wrapped? {
      MessageEndsWithRoot(e.cause);
      Strings.EndsWithTrans(e.Message(), e.cause.Message(), e.Root().Message());
    }
  }

  datatype Result<T> = Ok(value: T) | Err(error: Error)

  datatype Option<T> = None | Some(value: T)

  /** A result together with the requests sent to Vault to obtain it. */
  datatype Call<T> = Call(result: Result<T>, sent: seq<Request>)

  /** An HTTP request to the Vault server, with the client's address and
      token and a JSON object body. */
  datatype Request = Request(verb: string, address: string, path: string, token: string, body: map<string, string>)

  datatype Response = Response(body: string)

  datatype Client = Client(address: string, token: string)

  datatype PrivateKey = RsaPrivateKey(pkcs1: Bytes)

  /** The CSR template: subject common name, DNS names and organization. */
  datatype CsrTemplate = CsrTemplate(commonName: string, dnsNames: seq<string>, organization: seq<string>)

  datatype ParsedBundle = ParsedBundle(certificate: Bytes, caChain: seq<Bytes>)

  datatype CertBundle = CertBundle(certificate: string, caChain: seq<string>)

  datatype AppRole = AppRole(roleId: string, secretId: string)

  /** Key and certificate chain, both PEM-encoded. */
  datatype Issued = Issued(key: Bytes, certificate: Bytes)

  /** The secret data visible in the issuer's resource namespace:
      secret name to field name to value. */
  type SecretStore = map<string, map<string, string>>

  /** Outcomes of the collaborators the issuer calls. */
  datatype Environment = Environment(
    secretTLSKey: (string, string) -> Result<PrivateKey>,        // stored key of a certificate secret (namespace, name)
    generateRSAPrivateKey: nat -> Result<PrivateKey>,
    encodePKCS1PrivateKey: PrivateKey -> Bytes,
    commonNameForCertificate: CertificateSpec -> Result<string>,
    dnsNamesForCertificate: CertificateSpec -> Result<seq<string>>,
    createCertificateRequest: (CsrTemplate, PrivateKey) -> Result<Bytes>,
    pemEncode: (string, Bytes) -> Result<string>,
    newClient: Result<Client>,                                 // client from the default configuration
    rawRequest: Request -> Result<Response>,
    tokenID: Response -> Result<string>,                       // decoding the login reply and reading its token
    parsePKIMap: Response -> Result<ParsedBundle>,             // decoding the signing reply and parsing its data
    toCertBundle: ParsedBundle -> Result<CertBundle>,
    toPEMBundle: CertBundle -> Bytes
  )

  /** The issuer: its spec, the namespace its secrets live in, those
      secrets, and its collaborators. */
  datatype Vault = Vault(issuer: IssuerSpec, namespace: string, secrets: SecretStore, env: Environment)

  // ---------------------------------------------------------------------
  // Reading credentials from secrets (issue.go:250-290)

  /** The token stored in secret `name`, trimmed. */
  function VaultTokenRef(v: Vault, name: string): (r: Result<string>)
    ensures r.Ok? <==> name in v.secrets && TokenField in v.secrets[name]
    ensures name !in v.secrets ==> r == Err(SecretNotFound(name))
    ensures name in v.secrets && TokenField !in v.secrets[name] ==>
      r == Err(MissingSecretField(TokenField, v.namespace, name))
    ensures r.Ok? ==> Strings.IsTrimOf(r.value, v.secrets[name][TokenField])
  {
    if name !in v.secrets then Err(SecretNotFound(name))
    else
      var data := v.secrets[name];
      if TokenField !in data then Err(MissingSecretField(TokenField, v.namespace, name))
      else Ok(Strings.TrimSpace(data[TokenField]))
  }

  /** The role id and secret id stored in secret `name`, trimmed; the role id
      is looked for first. */
  function AppRoleRef(v: Vault, name: string): (r: Result<AppRole>)
    ensures r.Ok? <==> name in v.secrets && RoleIdField in v.secrets[name] && SecretIdField in v.secrets[name]
    ensures name !in v.secrets ==> r == Err(SecretNotFound(name))
    ensures name in v.secrets && RoleIdField !in v.secrets[name] ==>
      r == Err(MissingSecretField(RoleIdField, v.namespace, name))
    ensures name in v.secrets && RoleIdField in v.secrets[name] && SecretIdField !in v.secrets[name] ==>
      r == Err(MissingSecretField(SecretIdField, v.namespace, name))
    ensures r.Ok? ==>
      Strings.IsTrimOf(r.value.roleId, v.secrets[name][RoleIdField]) &&
      Strings.IsTrimOf(r.value.secretId, v.secrets[name][SecretIdField])
  {
    if name !in v.secrets then Err(SecretNotFound(name))
    else
      var data := v.secrets[name];
      if RoleIdField !in data then Err(MissingSecretField(RoleIdField, v.namespace, name))
      else
        var roleId := Strings.TrimSpace(data[RoleIdField]);
        if SecretIdField !in data then Err(MissingSecretField(SecretIdField, v.namespace, name))
        else Ok(AppRole(roleId, Strings.TrimSpace(data[SecretIdField])))
  }

  // ---------------------------------------------------------------------
  // Authentication (issue.go:120-192)

  datatype AuthMethod = TokenAuth(secretName: string) | AppRoleAuth(secretName: string) | NoAuthConfigured

  /** A token secret takes precedence over an AppRole secret. */
  function SelectAuth(auth: VaultAuth): (m: AuthMethod)
    ensures m.TokenAuth? <==> auth.tokenSecretRef.name != ""
    ensures m.AppRoleAuth? <==> auth.tokenSecretRef.name == "" && auth.appRoleSecretRef.name != ""
    ensures m.NoAuthConfigured? <==> auth.tokenSecretRef.name == "" && auth.appRoleSecretRef.name == ""
    ensures m.TokenAuth? ==> m.secretName == auth.tokenSecretRef.name
    ensures m.AppRoleAuth? ==> m.secretName == auth.appRoleSecretRef.name
  {
    if auth.tokenSecretRef.name != "" then TokenAuth(auth.tokenSecretRef.name)
    else if auth.appRoleSecretRef.name != "" then AppRoleAuth(auth.appRoleSecretRef.name)
    else NoAuthConfigured
  }

  /** The AppRole login request: role id and secret id posted to the login
      endpoint with the client's address and current token. */
  function LoginRequest(client: Client, role: AppRole): (req: Request)
    ensures req.verb == "POST" && req.path == LoginPath
    ensures req.address == client.address && req.token == client.token
    ensures req.body.Keys == {"role_id", "secret_id"}
    ensures req.body["role_id"] == role.roleId && req.body["secret_id"] == role.secretId
  {
    Request("POST", client.address, LoginPath, client.token,
            map["role_id" := role.roleId, "secret_id" := role.secretId])
  }

  /** Exchanges the AppRole credentials in secret `name` for a token. */
  function RequestTokenWithAppRoleRef(v: Vault, client: Client, name: string): (c: Call<string>)
    ensures AppRoleRef(v, name).Err? ==>
      && c.sent == []
      && c.result == Err(Wrapped("error reading Vault AppRole from secret: " + v.namespace + "/" + name, AppRoleRef(v, name).error))
    ensures AppRoleRef(v, name).Ok? ==> c.sent == [LoginRequest(client, AppRoleRef(v, name).value)]
    ensures c.result.Ok? ==>
      && c.sent != []
      && v.env.rawRequest(c.sent[0]).Ok?
      && v.env.tokenID(v.env.rawRequest(c.sent[0]).value) == c.result
    // The login's outcome, branch by branch.
    ensures AppRoleRef(v, name).Ok? ==>
      var reply := v.env.rawRequest(LoginRequest(client, AppRoleRef(v, name).value));
      && (reply.Err? ==> c.result == Err(Wrapped("error calling Vault server", reply.error)))
      && (reply.Ok? && v.env.tokenID(reply.value).Err? ==>
            c.result == Err(Wrapped("unable to read token", v.env.tokenID(reply.value).error)))
      && (reply.Ok? && v.env.tokenID(reply.value).Ok? ==> c.result == v.env.tokenID(reply.value))
  {
    match AppRoleRef(v, name)
    case Err(e) => Call(Err(Wrapped("error reading Vault AppRole from secret: " + v.namespace + "/" + name, e)), [])
    case Ok(role) =>
      var req := LoginRequest(client, role);
      match v.env.rawRequest(req)
      case Err(e) => Call(Err(Wrapped("error calling Vault server", e)), [req])
      case Ok(resp) =>
        match v.env.tokenID(resp)
        case Err(e) => Call(Err(Wrapped("unable to read token", e)), [req])
        case Ok(token) => Call(Ok(token), [req])
  }

  function ReadTokenContext(v: Vault, name: string): string {
    "error reading Vault token from secret " + v.namespace + "/" + name
  }

  /** A client for the configured server holding a token from the selected
      authentication method. */
  function InitVaultClient(v: Vault): (c: Call<Client>)
    ensures v.env.newClient.Err? ==> c == Call(Err(Wrapped("error initializing Vault client", v.env.newClient.error)), [])
    ensures c.result.Ok? ==> c.result.value.address == v.issuer.vault.server
    // A token secret is read directly: no login request, AppRole never looked at.
    ensures v.issuer.vault.auth.tokenSecretRef.name != "" ==> c.sent == []
    ensures var name := v.issuer.vault.auth.tokenSecretRef.name;
      name != "" && v.env.newClient.Ok? ==>
        c.result == match VaultTokenRef(v, name)
          case Ok(t) => Ok(v.env.newClient.value.(address := v.issuer.vault.server, token := t))
          case Err(e) => Err(Wrapped(ReadTokenContext(v, name), e))
    // Otherwise an AppRole secret is exchanged for a token.
    ensures var auth := v.issuer.vault.auth;
      auth.tokenSecretRef.name == "" && auth.appRoleSecretRef.name != "" && v.env.newClient.Ok? ==>
        var client := v.env.newClient.value.(address := v.issuer.vault.server);
        var login := RequestTokenWithAppRoleRef(v, client, auth.appRoleSecretRef.name);
        c.sent == login.sent &&
        c.result == match login.result
          case Ok(t) => Ok(client.(token := t))
          case Err(e) => Err(Wrapped(ReadTokenContext(v, auth.appRoleSecretRef.name), e))
    // Neither is set.
    ensures var auth := v.issuer.vault.auth;
      auth.tokenSecretRef.name == "" && auth.appRoleSecretRef.name == "" && v.env.newClient.Ok? ==>
        c == Call(Err(AuthNotConfigured), [])
    ensures |c.sent| <= 1
  {
    match v.env.newClient
    case Err(e) => Call(Err(Wrapped("error initializing Vault client", e)), [])
    case Ok(c0) =>
      var client := c0.(address := v.issuer.vault.server);
      match SelectAuth(v.issuer.vault.auth)
      case TokenAuth(name) =>
        (match VaultTokenRef(v, name)
         case Err(e) => Call(Err(Wrapped(ReadTokenContext(v, name), e)), [])
         case Ok(token) => Call(Ok(client.(token := token)), []))
      case AppRoleAuth(name) =>
        var login := RequestTokenWithAppRoleRef(v, client, name);
        (match login.result
         case Err(e) => Call(Err(Wrapped(ReadTokenContext(v, name), e)), login.sent)
         case Ok(token) => Call(Ok(client.(token := token)), login.sent))
      case NoAuthConfigured => Call(Err(AuthNotConfigured), [])
  }

  /** With a token secret set, the AppRole reference does not matter. */
  lemma TokenTakesPrecedence(v: Vault, appRole: SecretRef)
    requires v.issuer.vault.auth.tokenSecretRef.name != ""
    ensures var auth := v.issuer.vault.auth.(appRoleSecretRef := appRole);
      InitVaultClient(v.(issuer := v.issuer.(vault := v.issuer.vault.(auth := auth)))) == InitVaultClient(v)
  {
  }

  // ---------------------------------------------------------------------
  // The signing request (issue.go:194-248)

  /** The requested TTL: the issuer's duration, or 90 days when it is zero. */
  function CertDuration(issuer: IssuerSpec): (d: Duration)
    ensures d != 0
    ensures issuer.duration == 0 ==> d == CertificateDuration
    ensures issuer.duration != 0 ==> d == issuer.duration
  {
    if issuer.duration != 0 then issuer.duration else CertificateDuration
  }

  /** The JSON parameters posted to Vault's signing endpoint. */
  function SignParameters(commonName: string, altNames: seq<string>, ttl: Duration, csr: string): (m: map<string, string>)
    ensures m.Keys == {"common_name", "alt_names", "ttl", "csr", "exclude_cn_from_sans"}
    ensures m["common_name"] == commonName && m["csr"] == csr
    ensures m["alt_names"] == Strings.Join(altNames, ",")
    ensures m["ttl"] == DurationString(ttl)
    ensures m["exclude_cn_from_sans"] == "true"
  {
    map[
      "common_name" := commonName,
      "alt_names" := Strings.Join(altNames, ","),
      "ttl" := DurationString(ttl),
      "csr" := csr,
      "exclude_cn_from_sans" := "true"
    ]
  }

  /** The signing path: the issuer's path below "/v1", cleaned. */
  function SigningPath(issuer: IssuerSpec): (p: string)
    ensures p != [] && p[0] == '/'
  {
    Paths.JoinRooted("/v1", issuer.vault.path)
  }

  /** The signing request built from a client, the subject names and the CSR. */
  function SigningRequest(issuer: IssuerSpec, client: Client, commonName: string, altNames: seq<string>, csr: string): (req: Request)
    ensures req.verb == "POST" && req.path == SigningPath(issuer)
    ensures req.address == client.address && req.token == client.token
    ensures req.body == SignParameters(commonName, altNames, CertDuration(issuer), csr)
  {
    Request("POST", client.address, SigningPath(issuer), client.token,
            SignParameters(commonName, altNames, CertDuration(issuer), csr))
  }

  /** Posts the CSR to Vault and returns the PEM bundle it signs. */
  function RequestVaultCert(v: Vault, commonName: string, altNames: seq<string>, csr: string): (c: Call<Bytes>)
    ensures var init := InitVaultClient(v);
      init.result.Err? ==> c == Call(Err(init.result.error), init.sent)
    ensures var init := InitVaultClient(v);
      init.result.Ok? ==> c.sent == init.sent + [SigningRequest(v.issuer, init.result.value, commonName, altNames, csr)]
    ensures var init := InitVaultClient(v);
      c.result.Ok? ==>
        && init.result.Ok?
        && v.env.rawRequest(SigningRequest(v.issuer, init.result.value, commonName, altNames, csr)).Ok?
    // Vault's reply, branch by branch.
    ensures var init := InitVaultClient(v);
      init.result.Ok? ==>
        var reply := v.env.rawRequest(SigningRequest(v.issuer, init.result.value, commonName, altNames, csr));
        reply.Err? ==> c.result == Err(Wrapped("error calling Vault server", reply.error))
    ensures var init := InitVaultClient(v);
      init.result.Ok? ==>
        var reply := v.env.rawRequest(SigningRequest(v.issuer, init.result.value, commonName, altNames, csr));
        reply.Ok? ==> c.result == SignedBundle(v, reply.value)
  {
    var init := InitVaultClient(v);
    match init.result
    case Err(e) => Call(Err(e), init.sent)
    case Ok(client) =>
      var req := SigningRequest(v.issuer, client, commonName, altNames, csr);
      var sent := init.sent + [req];
      match v.env.rawRequest(req)
      case Err(e) => Call(Err(Wrapped("error calling Vault server", e)), sent)
      case Ok(resp) => Call(SignedBundle(v, resp), sent)
  }

  /** The PEM bundle in Vault's reply to a signing request. */
  function SignedBundle(v: Vault, resp: Response): (r: Result<Bytes>)
    ensures v.env.parsePKIMap(resp).Err? ==> r == Err(Wrapped("unable to parse certificate", v.env.parsePKIMap(resp).error))
    ensures var parsed := v.env.parsePKIMap(resp);
      parsed.Ok? && v.env.toCertBundle(parsed.value).Err? ==>
        r == Err(Wrapped("unable to convert certificate bundle to PEM bundle", v.env.toCertBundle(parsed.value).error))
    // The certificate returned is the PEM rendering of the bundle Vault signed.
    ensures r.Ok? <==> v.env.parsePKIMap(resp).Ok? && v.env.toCertBundle(v.env.parsePKIMap(resp).value).Ok?
    ensures r.Ok? ==> r.value == v.env.toPEMBundle(v.env.toCertBundle(v.env.parsePKIMap(resp).value).value)
  {
    match v.env.parsePKIMap(resp)
    case Err(e) => Err(Wrapped("unable to parse certificate", e))
    case Ok(parsed) =>
      match v.env.toCertBundle(parsed)
      case Err(e) => Err(Wrapped("unable to convert certificate bundle to PEM bundle", e))
      case Ok(bundle) => Ok(v.env.toPEMBundle(bundle))
  }

  /** The default TTL is rendered as "2160h0m0s". */
  lemma DefaultTtlString()
    ensures DurationString(CertificateDuration) == "2160h0m0s"
  {
    assert CertificateDuration == 2160 * Hour;
    WholeHoursString(2160);
    DefaultDays();
  }

  lemma DefaultDays()
    ensures DecimalString(2160) == "2160"
  {
    assert DecimalString(2) == "2";
    assert DecimalString(21) == DecimalString(2) + [Digit(1)];
    assert DecimalString(216) == DecimalString(21) + [Digit(6)];
    assert DecimalString(2160) == DecimalString(216) + [Digit(0)];
  }

  /** Whoever splits `alt_names` on commas gets the alt names back, when
      there is at least one and none contains a comma. */
  lemma AltNamesRecoverable(commonName: string, altNames: seq<string>, ttl: Duration, csr: string)
    requires |altNames| > 0
    requires forall k :: 0 <= k < |altNames| ==> ',' !in altNames[k]
    ensures Strings.Split(SignParameters(commonName, altNames, ttl, csr)["alt_names"], ',') == altNames
  {
    Strings.SplitJoin(altNames, ',');
  }

  /** A path of plain segments is used as it is, right below "/v1". */
  lemma SigningPathPlain(issuer: IssuerSpec, segments: seq<string>)
    requires |segments| > 0 && Paths.AllSimple(segments)
    requires issuer.vault.path == Strings.Join(segments, "/")
    ensures SigningPath(issuer) == "/v1/" + issuer.vault.path
  {
    VersionPrefix();
    Paths.JoinRootedNonEmpty(["v1"], segments);
  }

  /** "/v1" is the rooted path of the single plain element "v1". */
  lemma VersionPrefix()
    ensures "/v1" == "/" + Strings.Join(["v1"], "/")
    ensures Paths.AllSimple(["v1"])
  {
    assert Paths.SimpleElement("v1");
  }

  // ---------------------------------------------------------------------
  // Signing a certificate (issue.go:86-118)

  datatype SubjectNames = SubjectNames(commonName: string, altNames: seq<string>)

  /** The names put into the CSR and the request: the common name falls back
      to the first DNS name when it is empty. */
  function ResolveNames(v: Vault, spec: CertificateSpec): (r: Result<SubjectNames>)
    ensures var cn := v.env.commonNameForCertificate(spec);
      cn.Err? ==> r == Err(Wrapped("error extracting Common Name from certificate", cn.error))
    ensures var cn, dns := v.env.commonNameForCertificate(spec), v.env.dnsNamesForCertificate(spec);
      cn.Ok? && dns.Err? ==> r == Err(Wrapped("error extracting DNS Names from certificate", dns.error))
    ensures var cn, dns := v.env.commonNameForCertificate(spec), v.env.dnsNamesForCertificate(spec);
      r.Ok? ==>
        && cn.Ok? && dns.Ok? && r.value.altNames == dns.value
        && (cn.value == "" && |dns.value| > 0 ==> r.value.commonName == dns.value[0])
        && (cn.value != "" || dns.value == [] ==> r.value.commonName == cn.value)
    ensures r.Err? ==> v.env.commonNameForCertificate(spec).Err? || v.env.dnsNamesForCertificate(spec).Err?
  {
    match v.env.commonNameForCertificate(spec)
    case Err(e) => Err(Wrapped("error extracting Common Name from certificate", e))
    case Ok(commonName) =>
      match v.env.dnsNamesForCertificate(spec)
      case Err(e) => Err(Wrapped("error extracting DNS Names from certificate", e))
      case Ok(altNames) =>
        if |commonName| == 0 && |altNames| > 0 then Ok(SubjectNames(altNames[0], altNames))
        else Ok(SubjectNames(commonName, altNames))
  }

  /** The template of the CSR: the names as subject and SANs, and the
      organization "cert-manager". */
  function CsrTemplateFor(names: SubjectNames): CsrTemplate {
    CsrTemplate(names.commonName, names.altNames, [DefaultOrganization])
  }

  /** The PEM-encoded CSR for the names, signed with `key`. */
  function CsrPem(v: Vault, names: SubjectNames, key: PrivateKey): (r: Result<string>)
    // The CSR exists exactly when it can be created and PEM-encoded ...
    ensures var der := v.env.createCertificateRequest(CsrTemplateFor(names), key);
      r.Ok? <==> der.Ok? && v.env.pemEncode("CERTIFICATE REQUEST", der.value).Ok?
    // ... and then it is that PEM block.
    ensures var der := v.env.createCertificateRequest(CsrTemplateFor(names), key);
      r.Ok? ==> der.Ok? && r.value == v.env.pemEncode("CERTIFICATE REQUEST", der.value).value
    // Creation failures are reported before encoding failures.
    ensures var der := v.env.createCertificateRequest(CsrTemplateFor(names), key);
      der.Err? ==> r == Err(Wrapped("error creating x509 certificate", der.error))
    ensures var der := v.env.createCertificateRequest(CsrTemplateFor(names), key);
      der.Ok? && v.env.pemEncode("CERTIFICATE REQUEST", der.value).Err? ==>
        r == Err(Wrapped("error encoding certificate request", v.env.pemEncode("CERTIFICATE REQUEST", der.value).error))
  {
    match v.env.createCertificateRequest(CsrTemplateFor(names), key)
    case Err(e) => Err(Wrapped("error creating x509 certificate", e))
    case Ok(der) =>
      match v.env.pemEncode("CERTIFICATE REQUEST", der)
      case Err(e) => Err(Wrapped("error encoding certificate request", e))
      case Ok(pem) => Ok(pem)
  }

  /** Resolves the names, builds the CSR and has Vault sign it. Nothing is
      sent to Vault unless the names and the CSR are ready. */
  function SignCertificate(v: Vault, spec: CertificateSpec, key: PrivateKey): (c: Call<Bytes>)
    ensures ResolveNames(v, spec).Err? ==> c == Call(Err(ResolveNames(v, spec).error), [])
    ensures var names := ResolveNames(v, spec);
      names.Ok? && CsrPem(v, names.value, key).Err? ==> c == Call(Err(CsrPem(v, names.value, key).error), [])
    ensures var names := ResolveNames(v, spec);
      names.Ok? && CsrPem(v, names.value, key).Ok? ==>
        c == RequestVaultCert(v, names.value.commonName, names.value.altNames, CsrPem(v, names.value, key).value)
  {
    match ResolveNames(v, spec)
    case Err(e) => Call(Err(e), [])
    case Ok(names) =>
      match CsrPem(v, names, key)
      case Err(e) => Call(Err(e), [])
      case Ok(csr) => RequestVaultCert(v, names.commonName, names.altNames, csr)
  }

  /** A signing request for the names a certificate lists: the common
      name, or the first DNS name when the common name is empty; all DNS
      names comma-joined in order; the issuer's TTL; exclude_cn_from_sans. */
  predicate CarriesNames(req: Request, issuer: IssuerSpec, commonName: string, dnsNames: seq<string>) {
    && req.verb == "POST"
    && req.path == SigningPath(issuer)
    && req.body.Keys == {"common_name", "alt_names", "ttl", "csr", "exclude_cn_from_sans"}
    && req.body["common_name"] == FallbackName(commonName, dnsNames)
    && req.body["alt_names"] == Strings.Join(dnsNames, ",")
    && req.body["ttl"] == DurationString(CertDuration(issuer))
    && req.body["exclude_cn_from_sans"] == "true"
  }

  /** The common name sent and put into the CSR: the first DNS name when
      the common name is empty. */
  function FallbackName(commonName: string, dnsNames: seq<string>): (cn: string)
    ensures commonName != "" ==> cn == commonName
    ensures commonName == "" && |dnsNames| > 0 ==> cn == dnsNames[0]
    ensures commonName == "" && dnsNames == [] ==> cn == ""
  {
    if commonName == "" && |dnsNames| > 0 then dnsNames[0] else commonName
  }

  /** The CSR in a signing request is the one created, with `key`, for the
      same names the request's parameters carry. */
  predicate CarriesCsr(req: Request, v: Vault, key: PrivateKey, commonName: string, dnsNames: seq<string>) {
    var der := v.env.createCertificateRequest(CsrTemplateFor(SubjectNames(FallbackName(commonName, dnsNames), dnsNames)), key);
    && "csr" in req.body
    && der.Ok?
    && v.env.pemEncode("CERTIFICATE REQUEST", der.value).Ok?
    && req.body["csr"] == v.env.pemEncode("CERTIFICATE REQUEST", der.value).value
  }

  /** Once the client is ready and the CSR is built, signing sends exactly
      one request after those of client initialisation; it carries the
      certificate's names and the CSR made for those names. */
  lemma SigningRequestCarriesNames(v: Vault, spec: CertificateSpec, key: PrivateKey)
    requires v.env.commonNameForCertificate(spec).Ok? && v.env.dnsNamesForCertificate(spec).Ok?
    requires InitVaultClient(v).result.Ok?
    requires CsrPem(v, ResolveNames(v, spec).value, key).Ok?
    ensures var sent := SignCertificate(v, spec, key).sent;
      var cn, dns := v.env.commonNameForCertificate(spec).value, v.env.dnsNamesForCertificate(spec).value;
      && |sent| == |InitVaultClient(v).sent| + 1
      && sent == InitVaultClient(v).sent + [sent[|sent| - 1]]
      && CarriesNames(sent[|sent| - 1], v.issuer, cn, dns)
      && CarriesCsr(sent[|sent| - 1], v, key, cn, dns)
  {
    var names := ResolveNames(v, spec);
    var csr := CsrPem(v, names.value, key);
    var init := InitVaultClient(v);
    var req := SigningRequest(v.issuer, init.result.value, names.value.commonName, names.value.altNames, csr.value);
    assert SignCertificate(v, spec, key).sent == init.sent + [req];
    assert names.value == SubjectNames(FallbackName(v.env.commonNameForCertificate(spec).value, v.env.dnsNamesForCertificate(spec).value), v.env.dnsNamesForCertificate(spec).value);
  }

  // ---------------------------------------------------------------------
  // Obtaining a certificate (issue.go:58-84)

  /** Lookup errors after which a fresh key is generated. */
  predicate Regenerates(e: Error) {
    e.SecretNotFound? || e.InvalidData?
  }

  /** The key to sign with: the stored key when it can be read; a freshly
      generated one when the secret is missing or its key is invalid; any
      other lookup error is reported. */
  function ChooseKey(stored: Result<PrivateKey>, generated: Result<PrivateKey>): (r: Result<PrivateKey>)
    ensures stored.Ok? ==> r == stored
    ensures stored.Err? && Regenerates(stored.error) && generated.Ok? ==> r == generated
    ensures stored.Err? && Regenerates(stored.error) && generated.Err? ==>
      r == Err(Wrapped("error generating private key", generated.error))
    ensures stored.Err? && !Regenerates(stored.error) ==>
      r == Err(Wrapped("error getting certificate private key", stored.error))
  {
    match stored
    case Ok(_) => stored
    case Err(e) =>
      if Regenerates(e) then
        match generated
        case Ok(_) => generated
        case Err(g) => Err(Wrapped("error generating private key", g))
      else Err(Wrapped("error getting certificate private key", e))
  }

  predicate HasDomains(spec: CertificateSpec) {
    |spec.commonName| > 0 || |spec.dnsNames| > 0
  }

  function KeyFor(v: Vault, namespace: string, spec: CertificateSpec): Result<PrivateKey> {
    ChooseKey(v.env.secretTLSKey(namespace, spec.secretName), v.env.generateRSAPrivateKey(KeyBitSize))
  }

  /** What obtaining a certificate yields and sends. */
  function Obtain(v: Vault, namespace: string, spec: CertificateSpec): (c: Call<Issued>)
    // A key error is reported first, before the names are looked at.
    ensures KeyFor(v, namespace, spec).Err? ==> c == Call(Err(KeyFor(v, namespace, spec).error), [])
    // Without names nothing is sent to Vault.
    ensures KeyFor(v, namespace, spec).Ok? && !HasDomains(spec) ==> c == Call(Err(NoDomains), [])
    ensures !HasDomains(spec) ==> c.sent == [] && c.result.Err?
    // Otherwise the key is used to sign, and is what is returned.
    ensures var key := KeyFor(v, namespace, spec);
      key.Ok? && HasDomains(spec) ==>
        var signed := SignCertificate(v, spec, key.value);
        c.sent == signed.sent &&
        c.result == match signed.result
          case Ok(pem) => Ok(Issued(v.env.encodePKCS1PrivateKey(key.value), pem))
          case Err(e) => Err(e)
    // A stored key that could be read is reused unchanged.
    ensures var stored := v.env.secretTLSKey(namespace, spec.secretName);
      stored.Ok? && c.result.Ok? ==> c.result.value.key == v.env.encodePKCS1PrivateKey(stored.value)
  {
    match KeyFor(v, namespace, spec)
    case Err(e) => Call(Err(e), [])
    case Ok(key) =>
      if !HasDomains(spec) then Call(Err(NoDomains), [])
      else
        var signed := SignCertificate(v, spec, key);
        match signed.result
        case Ok(pem) => Call(Ok(Issued(v.env.encodePKCS1PrivateKey(key), pem)), signed.sent)
        case Err(e) => Call(Err(e), signed.sent)
  }

  /** Step by step, as the issuer does it: look the key up, regenerate it if
      it is missing or invalid, check that there are names, sign. */
  method ObtainCertificate(v: Vault, namespace: string, spec: CertificateSpec) returns (r: Result<Issued>, sent: seq<Request>)
    ensures r == Obtain(v, namespace, spec).result
    ensures sent == Obtain(v, namespace, spec).sent
  {
    sent := [];
    var signeeKey := v.env.secretTLSKey(namespace, spec.secretName);
    if signeeKey.Err? && Regenerates(signeeKey.error) {
      signeeKey := v.env.generateRSAPrivateKey(KeyBitSize);
      if signeeKey.Err? {
        r := Err(Wrapped("error generating private key", signeeKey.error));
        return;
      }
    }
    if signeeKey.Err? {
      r := Err(Wrapped("error getting certificate private key", signeeKey.error));
      return;
    }
    if |spec.commonName| == 0 && |spec.dnsNames| == 0 {
      r := Err(NoDomains);
      return;
    }
    var crtPem := SignCertificate(v, spec, signeeKey.value);
    sent := crtPem.sent;
    if crtPem.result.Err? {
      r := Err(crtPem.result.error);
      return;
    }
    r := Ok(Issued(v.env.encodePKCS1PrivateKey(signeeKey.value), crtPem.result.value));
  }

  // ---------------------------------------------------------------------
  // Issuing (issue.go:45-56)

  /** The Ready message written on failure starts with the fixed prefix and
      ends with the text of the underlying failure. */
  lemma FailureMessageNamesCause(e: Error)
    ensures var s := MessageErrorIssueCert + e.Message();
      && s[..|MessageErrorIssueCert|] == MessageErrorIssueCert
      && Strings.EndsWith(s, e.Root().Message())
  {
    var s := MessageErrorIssueCert + e.Message();
    MessageEndsWithRoot(e);
    assert Strings.EndsWith(s, e.Message());
    Strings.EndsWithTrans(s, e.Message(), e.Root().Message());
  }

  /** Obtains a key and certificate for `crt` and records the outcome on its
      Ready condition. On failure no key or certificate is returned. */
  method Issue(v: Vault, crt: Certificate) returns (key: Option<Bytes>, certPem: Option<Bytes>, err: Option<Error>, sent: seq<Request>)
    modifies crt
    ensures var o := Obtain(v, crt.namespace, crt.spec);
      && sent == o.sent
      && (o.result.Err? ==>
            && key == None && certPem == None && err == Some(o.result.error)
            && crt.ready == Condition(ConditionFalse, ErrorIssueCert, MessageErrorIssueCert + o.result.error.Message()))
      && (o.result.Ok? ==>
            && key == Some(o.result.value.key) && certPem == Some(o.result.value.certificate) && err == None
            && crt.ready == Condition(ConditionTrue, SuccessCertIssued, MessageCertIssued))
  {
    var r;
    r, sent := ObtainCertificate(v, crt.namespace, crt.spec);
    if r.Err? {
      var s := MessageErrorIssueCert + r.error.Message();
      crt.UpdateStatusCondition(ConditionFalse, ErrorIssueCert, s);
      return None, None, Some(r.error), sent;
    }
    crt.UpdateStatusCondition(ConditionTrue, SuccessCertIssued, MessageCertIssued);
    return Some(r.value.key), Some(r.value.certificate), None, sent;
  }
}
