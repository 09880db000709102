/**
  The pure rules of apps/api/internal/handler/domains.go: what a hostname and a path may be, what
  a TLS mode needs, and which fields of a request keep, clear or set a stored column.
 */
module DomainRules {
  import opened Base
  import opened Text

  type Id = nat

  datatype Mode = Automatic | Custom | DnsChallenge | Off

  /** One row of the domains table. */
  datatype Domain = Domain(
    app: Id, hostname: string, path: string, stripPath: bool, internalPath: string,
    sslEnabled: bool, forceHTTPS: bool, mode: Mode, sslProvider: string, credentials: string,
    certificate: Option<Id>, dnsProvider: Option<Id>, port: Option<int>, advancedConfig: string)

  /** ssl_mode in a request: left out, no known mode, or a mode. */
  datatype ModeField = Omitted | Unknown | Given(mode: Mode)

  /** An id in a request: the empty text, no UUID, or a UUID. */
  datatype IdText = Blank | Garbled | Names(id: Id)

  datatype AddRequest = AddRequest(
    app: Id, hostname: string, path: string, stripPath: bool, internalPath: string,
    sslEnabled: bool, forceHTTPS: Option<bool>, mode: ModeField, sslProvider: string,
    certificate: IdText, dnsProvider: Option<IdText>, port: Option<int>, advancedConfig: string)

  datatype UpdateRequest = UpdateRequest(
    hostname: string, path: Option<string>, stripPath: Option<bool>, internalPath: Option<string>,
    sslEnabled: Option<bool>, forceHTTPS: Option<bool>, mode: ModeField, sslProvider: string,
    certificate: IdText, dnsProvider: Option<IdText>, port: Option<int>, advancedConfig: string)

  /** Who asks, what the rest of the system answers, and which of the queries and proxy calls fail. */
  datatype Env = Env(
    allowed: bool, admin: bool,
    providerModules: map<Id, string>, proxyModules: Option<set<string>>,
    listOk: bool, getOk: bool, writeOk: bool, resolveOk: bool, proxyOk: bool, deleteOk: bool)

  // ----- Hostnames -----

  predicate IsAlpha(c: char) { 'a' <= c <= 'z' || 'A' <= c <= 'Z' }

  predicate IsAlnum(c: char) { IsAlpha(c) || IsDigit(c) }

  predicate IsLabel(s: string) {
    1 <= |s| <= 63 && IsAlnum(s[0]) && IsAlnum(s[|s| - 1]) && forall c | c in s :: IsAlnum(c) || c == '-'
  }

  predicate IsTopLevel(s: string) { |s| >= 2 && forall c | c in s :: IsAlpha(c) }

  /** hostnameRegex: labels, then a top-level name; or localhost. */
  predicate IsHostname(h: string) {
    h == "localhost" ||
    (var labels := Split(h, '.');
     |labels| >= 2 && IsTopLevel(labels[|labels| - 1]) && forall i | 0 <= i < |labels| - 1 :: IsLabel(labels[i]))
  }

  predicate IsWildcard(hostname: string) { "*." <= hostname }

  predicate ValidDomainHostname(hostname: string) { IsHostname(TrimPrefix(hostname, "*.")) }

  lemma WildcardSplits(h: string)
    requires IsWildcard(h)
    ensures |Split(h, '.')| >= 2 && Split(h, '.')[0] == "*" && h[0] == '*'
  {
    assert h == "*" + ['.'] + h[2..];
    SplitConcat("*", h[2..], '.');
    SplitClean("*", '.');
  }

  /** hostnameRegex alone, which ProvisionDomain uses, accepts no wildcard. */
  lemma HostnameIsNoWildcard(h: string)
    requires IsHostname(h)
    ensures !IsWildcard(h)
  {
    if IsWildcard(h) {
      WildcardSplits(h);
    }
  }

  /** A wildcard is refused unless the mode can issue one. */
  predicate WildcardFits(hostname: string, mode: Mode) { IsWildcard(hostname) ==> mode.DnsChallenge? }

  function CoerceForceHTTPS(mode: Mode, force: bool): bool { force && !mode.Off? }

  // ----- Paths -----

  function NormalizePath(raw: string): string {
    var p := TrimSpace(raw);
    if p == "" then "/"
    else
      var rooted := if "/" <= p then p else "/" + p;
      if rooted == "/" then rooted else TrimRight(rooted, {'/'})
  }

  predicate IsPathChar(c: char) { IsAlnum(c) || c == '-' || c == '.' || c == '_' || c == '~' || c == '/' }

  predicate NoEmptySegment(p: string) { forall i | 0 <= i < |p| - 1 :: !(p[i] == '/' && p[i + 1] == '/') }

  predicate ValidPath(p: string) {
    |p| <= 255 && "/" <= p && (forall c | c in p :: IsPathChar(c)) && NoEmptySegment(p)
  }

  function NormalizeInternalPath(raw: string): string {
    var p := TrimSpace(raw);
    if p == "" || p == "/" then ""
    else
      var rooted := if "/" <= p then p else "/" + p;
      TrimRight(rooted, {'/'})
  }

  predicate ValidInternalPath(p: string) { p == "" || ValidPath(p) }

  /** The shape a stored path has: what validation accepts, and no trailing slash but the root's. */
  predicate StoredPath(p: string) { ValidPath(p) && (p == "/" || p[|p| - 1] != '/') }

  predicate StoredInternalPath(p: string) { p == "" || (ValidPath(p) && p[|p| - 1] != '/') }

  /** A path that passes validation after normalisation is in the stored shape. */
  lemma NormalizedPathIsStored(raw: string)
    requires ValidPath(NormalizePath(raw))
    ensures StoredPath(NormalizePath(raw))
  {
  }

  lemma PathCharsAreNoSpaces(c: char)
    requires IsPathChar(c)
    ensures !IsSpace(c)
  {
  }

  /** Normalising a stored path again changes nothing, so an edit that sends a stored path back is no edit. */
  lemma NormalizeStoredPath(p: string)
    requires StoredPath(p)
    ensures NormalizePath(p) == p
  {
    PathCharsAreNoSpaces(p[0]);
    PathCharsAreNoSpaces(p[|p| - 1]);
    if p != "/" {
      TrimRightKeeps(p, {'/'});
    }
  }

  lemma TrimRightKeeps(s: string, cut: set<char>)
    requires s == "" || s[|s| - 1] !in cut
    ensures TrimRight(s, cut) == s
  {
  }

  lemma NormalizedInternalPathIsStored(raw: string)
    requires ValidInternalPath(NormalizeInternalPath(raw))
    ensures StoredInternalPath(NormalizeInternalPath(raw))
  {
  }

  /**
    Normalisation is meant never to leave a path empty, but it does: exactly for two or more slashes
    and nothing else. Validation then refuses what is left.
   */
  lemma NormalizedPathEmptyIff(raw: string)
    ensures NormalizePath(raw) == "" <==> |TrimSpace(raw)| >= 2 && forall c | c in TrimSpace(raw) :: c == '/'
  {
    var p := TrimSpace(raw);
    if p != "" {
      var rooted := if "/" <= p then p else "/" + p;
      TrimRightEmptyIff(rooted, '/');
      if !("/" <= p) {
        assert rooted[1] == p[0] && p[0] in p && p[0] != '/';
      }
    }
  }

  lemma TrimRightEmptyIff(s: string, c: char)
    ensures TrimRight(s, {c}) == "" <==> forall x | x in s :: x == c
  {
    var t := TrimRight(s, {c});
    if t != "" {
      assert t[|t| - 1] == s[|t| - 1] && s[|t| - 1] in s;
    } else {
      assert forall x | x in s :: exists i :: 0 <= i < |s| && s[i] == x;
    }
  }

  // ----- Field by field -----

  /** parseCertificateID: only custom serves an uploaded certificate, and it cannot do without one. */
  function ParseCertificate(mode: Mode, field: IdText): (id: Option<Option<Id>>)
    ensures id.Some? ==> (id.value.Some? <==> mode.Custom?)
  {
    if !mode.Custom? then Some(None)
    else match field
      case Names(id) => Some(Some(id))
      case _ => None
  }

  /** resolveDNSProviderID: cleared outside the mode; inside it absent keeps, blank detaches, an id sets. */
  function ResolveDnsProvider(mode: Mode, field: Option<IdText>, stored: Option<Id>): (id: Option<Option<Id>>)
    ensures id.None? <==> mode.DnsChallenge? && field == Some(Garbled)
    ensures id.Some? && id.value.Some? ==> mode.DnsChallenge?
    ensures mode.DnsChallenge? && field.None? ==> id == Some(stored)
    ensures mode.DnsChallenge? && id.Some? && field.Some? ==> (id.value.None? <==> field == Some(Blank))
    ensures forall chosen: Id :: mode.DnsChallenge? && field == Some(Names(chosen)) ==> id == Some(Some(chosen))
  {
    if !mode.DnsChallenge? then Some(None)
    else match field
      case None => Some(stored)
      case Some(Blank) => Some(None)
      case Some(Garbled) => None
      case Some(Names(id)) => Some(Some(id))
  }

  /** The stored row already has this credential issue for this name. */
  predicate IssuesAlready(stored: Option<Domain>, hostname: string, provider: Option<Id>) {
    && stored.Some? && stored.value.mode.DnsChallenge?
    && stored.value.dnsProvider == provider && stored.value.hostname == hostname
  }

  /** The provider exists, and the proxy has answered and includes the provider's module. */
  predicate ProxyCarries(env: Env, provider: Id) {
    && provider in env.providerModules && env.proxyModules.Some?
    && env.providerModules[provider] in env.proxyModules.value
  }

  /** checkDNSChallenge: the HTTP status of a refusal, or 0. Only a change of mode, provider or hostname is gated. */
  function CheckDnsChallenge(env: Env, hostname: string, mode: Mode, provider: Option<Id>, stored: Option<Domain>):
      (status: nat)
    ensures status == 0 <==>
      || !mode.DnsChallenge?
      || IssuesAlready(stored, hostname, provider)
      || (env.admin && provider.Some? && ProxyCarries(env, provider.value))
    ensures status == 403 ==> !env.admin && !IssuesAlready(stored, hostname, provider)
    ensures status == 503 ==> env.proxyModules.None?
  {
    if !mode.DnsChallenge? then 0
    else if IssuesAlready(stored, hostname, provider) then 0
    else if !env.admin then 403
    else if provider.None? || provider.value !in env.providerModules then 400
    else if env.proxyModules.None? then 503
    else if env.providerModules[provider.value] !in env.proxyModules.value then 400
    else 0
  }

  /** ValidateDomainContainerPort: absent and 0 are no override. The outer None is a refusal. */
  function ValidatePort(field: Option<int>): (port: Option<Option<int>>)
    ensures port.Some? && port.value.Some? ==> 1 <= port.value.value <= 65535
  {
    if field.None? || field.value == 0 then Some(None)
    else if 1 <= field.value <= 65535 then Some(field)
    else None
  }

  function GetOr<T>(field: Option<T>, stored: T): T {
    match field case Some(v) => v case None => stored
  }

  // ----- The texts of a request -----

  /** What a request's texts come to: normalised, with the verdicts of their validation. */
  datatype Texts = Texts(hostname: string, hostOk: bool, path: string, pathOk: bool, internalPath: string,
      internalOk: bool)

  function AddTexts(req: AddRequest): Texts {
    var path, internalPath := NormalizePath(req.path), NormalizeInternalPath(req.internalPath);
    Texts(req.hostname, req.hostname != "" && ValidDomainHostname(req.hostname), path, ValidPath(path), internalPath,
        ValidInternalPath(internalPath))
  }

  /** A path the update leaves out is the stored one, and is not validated again. */
  function UpdateTexts(req: UpdateRequest, stored: Domain): Texts {
    var path := if req.path.Some? then NormalizePath(req.path.value) else stored.path;
    var internalPath := if req.internalPath.Some? then NormalizeInternalPath(req.internalPath.value)
        else stored.internalPath;
    Texts(req.hostname, req.hostname != "" && ValidDomainHostname(req.hostname),
          path, req.path.None? || ValidPath(path),
          internalPath, req.internalPath.None? || ValidInternalPath(internalPath))
  }

  function ProvisionTexts(hostname: string): Texts {
    Texts(hostname, IsHostname(hostname), NormalizePath(""), true, NormalizeInternalPath(""), true)
  }

  predicate Accepted(x: Texts) { x.hostOk && x.pathOk && x.internalOk }

  // ----- What every stored row satisfies -----

  predicate WellFormed(d: Domain) {
    d.hostname != "" && ValidDomainHostname(d.hostname) && StoredPath(d.path) && StoredInternalPath(d.internalPath)
  }

  predicate WellFormedTexts(x: Texts) {
    x.hostname != "" && ValidDomainHostname(x.hostname) && StoredPath(x.path) && StoredInternalPath(x.internalPath)
  }

  predicate Coherent(d: Domain) {
    && (d.certificate.Some? <==> d.mode.Custom?)
    && (d.dnsProvider.Some? <==> d.mode.DnsChallenge?)
    && WildcardFits(d.hostname, d.mode)
    && (d.forceHTTPS ==> !d.mode.Off?)
    && (d.port.Some? ==> 1 <= d.port.value <= 65535)
  }

  lemma AddTextsAreWellFormed(req: AddRequest)
    ensures Accepted(AddTexts(req)) ==> WellFormedTexts(AddTexts(req))
  {
    if Accepted(AddTexts(req)) {
      NormalizedPathIsStored(req.path);
      NormalizedInternalPathIsStored(req.internalPath);
    }
  }

  lemma UpdateTextsAreWellFormed(req: UpdateRequest, stored: Domain)
    requires WellFormed(stored)
    ensures Accepted(UpdateTexts(req, stored)) ==> WellFormedTexts(UpdateTexts(req, stored))
  {
    if Accepted(UpdateTexts(req, stored)) {
      if req.path.Some? { NormalizedPathIsStored(req.path.value); }
      if req.internalPath.Some? { NormalizedInternalPathIsStored(req.internalPath.value); }
    }
  }

  lemma ProvisionTextsAreWellFormed(hostname: string)
    ensures Accepted(ProvisionTexts(hostname)) ==> WellFormedTexts(ProvisionTexts(hostname)) && !IsWildcard(hostname)
  {
    if IsHostname(hostname) {
      HostnameIsNoWildcard(hostname);
      HostnameIsNotEmpty(hostname);
      NormalizedRoot();
    }
  }

  lemma NormalizedRoot()
    ensures NormalizePath("") == "/" && NormalizeInternalPath("") == ""
  {
  }

  lemma HostnameIsNotEmpty(h: string)
    requires IsHostname(h)
    ensures h != ""
  {
  }
}
