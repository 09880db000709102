/**
  What a request on domains is accepted for and what it then stores, column by column
  (apps/api/internal/handler/domains.go): the laws of DomainTable stated on the request itself.
 */
module DomainLaws {
  import opened Base
  import opened Text
  import opened DomainRules
  import opened DomainTable

  // ----- What a hostname and a path are -----

  /** Letters, and letters and digits, by their ASCII codes. */
  predicate Letter(c: char) { 65 <= c as int <= 90 || 97 <= c as int <= 122 }

  predicate Alnum(c: char) { Letter(c) || 48 <= c as int <= 57 }

  /** A label: one to sixty-three letters, digits and hyphens, with no hyphen at either end. */
  predicate LabelShape(s: string) {
    && 1 <= |s| <= 63 && (forall c <- s :: Alnum(c) || c == '-')
    && s[0] != '-' && s[|s| - 1] != '-'
  }

  /** Two labels or more, of which the last is two letters or more. */
  ghost predicate DottedShape(labels: seq<string>) {
    && |labels| >= 2
    && (forall i | 0 <= i < |labels| - 1 :: LabelShape(labels[i]))
    && |labels[|labels| - 1]| >= 2 && AllLetters(labels[|labels| - 1])
  }

  /** Labels joined by dots are a hostname when they have that shape; localhost is one by itself. */
  lemma HostnameIff(labels: seq<string>)
    requires |labels| >= 1 && Clean(labels, '.')
    ensures IsHostname(Join(labels, '.')) <==> labels == ["localhost"] || DottedShape(labels)
  {
    hide Split, Join, Clean, IsLabel, IsTopLevel, DottedShape;
    SplitJoin(labels, '.');
    LocalhostIsOne(labels);
    ShapeIff(labels);
  }

  lemma LocalhostIsOne(labels: seq<string>)
    requires |labels| >= 1 && Clean(labels, '.')
    ensures Join(labels, '.') == "localhost" <==> labels == ["localhost"]
  {
    hide Clean, Split;
    SplitJoin(labels, '.');
    SplitClean("localhost", '.');
  }

  lemma ShapeIff(labels: seq<string>)
    requires |labels| >= 1
    ensures DottedShape(labels) <==>
      && |labels| >= 2 && IsTopLevel(labels[|labels| - 1])
      && forall i | 0 <= i < |labels| - 1 :: IsLabel(labels[i])
  {
    hide IsLabel, LabelShape;
    forall i | 0 <= i < |labels| ensures IsLabel(labels[i]) <==> LabelShape(labels[i]) {
      LabelIff(labels[i]);
    }
  }

  predicate AllLetters(s: string) { forall c <- s :: Letter(c) }

  lemma LabelIff(s: string)
    ensures IsLabel(s) <==> LabelShape(s)
  {
    if 1 <= |s| {
      assert s[0] in s && s[|s| - 1] in s;
    }
  }

  /** A domain's hostname is one, or one behind a star. */
  lemma DomainHostnameIff(h: string)
    ensures ValidDomainHostname("*." + h) <==> IsHostname(h)
    ensures !("*." <= h) ==> (ValidDomainHostname(h) <==> IsHostname(h))
  {
    assert ("*." + h)[2..] == h;
  }

  predicate InPath(c: char) { Alnum(c) || c as int in {45, 46, 47, 95, 126} }

  /** A path: a slash first, letters, digits and - . _ ~ / alone, no two slashes in a row, 255 characters at most. */
  lemma ValidPathIff(p: string)
    ensures ValidPath(p) <==>
      && 1 <= |p| <= 255 && p[0] == '/' && (forall c <- p :: InPath(c))
      && forall k, l | 0 <= k && l == k + 1 < |p| && p[k] == '/' :: p[l] != '/'
  {
    if "/" <= p {
      assert p[0] == '/';
    }
  }

  ghost predicate Blanks(s: string) { forall c <- s :: IsSpace(c) }

  ghost predicate Slashes(s: string) { forall c <- s :: c == '/' }

  /**
    Whatever spaces stand around a path, whether it is rooted or not and however many slashes end it:
    it normalises to the stored shape.
   */
  lemma NormalizesTo(p: string, a: string, slashes: string, b: string)
    requires StoredPath(p) && p != "/" && Blanks(a) && Blanks(b) && Slashes(slashes)
    ensures NormalizePath(a + (p + slashes) + b) == p && NormalizeInternalPath(a + (p + slashes) + b) == p
    ensures NormalizePath(a + (p[1..] + slashes) + b) == p && NormalizeInternalPath(a + (p[1..] + slashes) + b) == p
  {
    StoredIsInk(p);
    EndsInNoSpace(p, slashes);
    EndsInNoSpace(p[1..], slashes);
    TrimSpaceMiddle(a, p + slashes, b);
    TrimSpaceMiddle(a, p[1..] + slashes, b);
    StripsTo(p, slashes);
    assert "/" + (p[1..] + slashes) == p + slashes;
    hide TrimSpace, TrimRight, ValidPath;
  }

  lemma StoredIsInk(p: string)
    requires StoredPath(p) && p != "/"
    ensures |p| >= 2 && !IsSpace(p[0]) && !IsSpace(p[1]) && !IsSpace(p[|p| - 1])
  {
    PathCharsAreNoSpaces(p[0]);
    PathCharsAreNoSpaces(p[1]);
    PathCharsAreNoSpaces(p[|p| - 1]);
  }

  lemma EndsInNoSpace(q: string, slashes: string)
    requires q != "" && Slashes(slashes) && !IsSpace(q[0]) && !IsSpace(q[|q| - 1])
    ensures var m := q + slashes; m != "" && m[0] == q[0] && !IsSpace(m[0]) && !IsSpace(m[|m| - 1])
  {
    assert slashes != "" ==> slashes[|slashes| - 1] in slashes;
    assert slashes != "" ==> (q + slashes)[|q + slashes| - 1] == slashes[|slashes| - 1];
  }

  lemma StripsTo(p: string, slashes: string)
    requires StoredPath(p) && p != "/" && Slashes(slashes)
    ensures TrimRight(p + slashes, {'/'}) == p && p + slashes != "/" && "/" <= p + slashes
    ensures p[1..] + slashes != "/" && p[1..] + slashes != "" && !("/" <= p[1..] + slashes)
  {
    TrimRightSkips(p, slashes, {'/'});
    TrimRightKeeps(p, {'/'});
    assert (p[1..] + slashes)[0] == p[1];
  }

  /** Nothing but spaces is the root, and so is a lone slash; an internal path is then none at all. */
  lemma RootNormalises(a: string, b: string)
    requires Blanks(a) && Blanks(b)
    ensures NormalizePath(a) == "/" && NormalizePath(a + "/" + b) == "/"
    ensures NormalizeInternalPath(a) == "" && NormalizeInternalPath(a + "/" + b) == ""
  {
    TrimSpaceMiddle(a, "", "");
    assert a + "" + "" == a;
    assert !IsSpace('/');
    TrimSpaceMiddle(a, "/", b);
  }

  // ----- Add -----

  /** The mode an add asks for. */
  function AddMode(req: AddRequest): Mode
    requires !req.mode.Unknown?
  {
    if req.mode == Omitted then Automatic else req.mode.mode
  }

  /** May this request have that provider issue: an administrator's, with a provider the proxy can serve. */
  predicate MayIssue(env: Env, provider: Id) {
    && env.admin && provider in env.providerModules && env.proxyModules.Some?
    && env.providerModules[provider] in env.proxyModules.value
  }

  /** No port, the 0 that stands for none, or one of the 65535. */
  predicate PortOk(port: Option<int>) { port.None? || 0 <= port.value <= 65535 }

  function PortStored(port: Option<int>): Option<int> { if port == Some(0) then None else port }

  /** The rows on a hostname all do TLS this way; one row can be left out. */
  ghost predicate NeighboursAgree(t: Table, hostname: string, mode: Mode, certificate: Option<Id>,
      provider: Option<Id>, but: Option<Id>)
  {
    forall j | j in t && but != Some(j) && t[j].hostname == hostname ::
      && t[j].mode == mode
      && (mode == Custom ==> t[j].certificate == certificate)
      && (mode == DnsChallenge ==> t[j].dnsProvider == provider)
  }

  ghost predicate PlaceFree(t: Table, hostname: string, path: string, but: Option<Id>) {
    forall j | j in t && but != Some(j) :: t[j].hostname != hostname || t[j].path != path
  }

  /** The hostname of a request that is one and fits the mode: a star needs the DNS challenge. */
  predicate NameOk(hostname: string, mode: Mode) {
    hostname != "" && ValidDomainHostname(hostname) && (hostname[0] == '*' ==> mode == DnsChallenge)
  }

  predicate AddTls(env: Env, req: AddRequest)
    requires !req.mode.Unknown?
  {
    match AddMode(req)
    case Custom => req.certificate.Names?
    case DnsChallenge =>
      req.dnsProvider.Some? && req.dnsProvider.value.Names? && MayIssue(env, req.dnsProvider.value.id)
    case _ => true
  }

  function NamedBy(field: IdText): Option<Id> { if field.Names? then Some(field.id) else None }

  function AddCertificate(req: AddRequest): Option<Id>
    requires !req.mode.Unknown?
  {
    if AddMode(req) == Custom then NamedBy(req.certificate) else None
  }

  function AddProvider(req: AddRequest): Option<Id>
    requires !req.mode.Unknown?
  {
    if AddMode(req) == DnsChallenge && req.dnsProvider.Some? then NamedBy(req.dnsProvider.value) else None
  }

  /** Everything an add needs before its row is inserted. */
  ghost predicate AddFine(env: Env, t: Table, req: AddRequest) {
    && env.allowed && !req.mode.Unknown? && NameOk(req.hostname, AddMode(req)) && AddTls(env, req)
    && ValidPath(NormalizePath(req.path))
    && ValidInternalPath(NormalizeInternalPath(req.internalPath))
    && PortOk(req.port)
    && (env.listOk ==>
          NeighboursAgree(t, req.hostname, AddMode(req), AddCertificate(req), AddProvider(req), None))
  }

  /** The row an add stores: each column is what the request names, in its normal form. */
  function AddRow(req: AddRequest): Domain
    requires !req.mode.Unknown?
  {
    Domain(app := req.app, hostname := req.hostname, path := NormalizePath(req.path), stripPath := req.stripPath,
           internalPath := NormalizeInternalPath(req.internalPath), sslEnabled := req.sslEnabled,
           forceHTTPS := AddMode(req) != Off && (if req.forceHTTPS.Some? then req.forceHTTPS.value else req.sslEnabled),
           mode := AddMode(req), sslProvider := req.sslProvider, credentials := "",
           certificate := AddCertificate(req), dnsProvider := AddProvider(req), port := PortStored(req.port),
           advancedConfig := req.advancedConfig)
  }

  lemma StarIsWildcard(h: string)
    requires h != "" && ValidDomainHostname(h)
    ensures h[0] == '*' <==> IsWildcard(h)
  {
    if h[0] == '*' && !IsWildcard(h) {
      StarIsNoHostname(h);
    }
  }

  lemma StarIsNoHostname(h: string)
    requires h != "" && h[0] == '*'
    ensures !IsHostname(h)
  {
    FirstOfFirst(h, '.');
  }

  /** The first part of a text begins with its first character, unless that is the separator. */
  lemma FirstOfFirst(s: string, sep: char)
    requires s != "" && s[0] != sep
    ensures Split(s, sep)[0] != "" && Split(s, sep)[0][0] == s[0]
  {
  }

  lemma AddTlsIs(env: Env, req: AddRequest)
    requires !req.mode.Unknown?
    ensures var certificate := ParseCertificate(AddMode(req), req.certificate);
            var provider := ResolveDnsProvider(AddMode(req), req.dnsProvider, None);
      && (AddTls(env, req) <==>
            certificate.Some? && provider.Some? &&
            CheckDnsChallenge(env, req.hostname, AddMode(req), provider.value, None) == 0)
      && (AddTls(env, req) ==> certificate.value == AddCertificate(req) && provider.value == AddProvider(req))
  {
  }

  lemma PortIs(port: Option<int>)
    ensures ValidatePort(port) == if PortOk(port) then Some(PortStored(port)) else None
  {
  }

  lemma NameIs(hostname: string, mode: Mode)
    ensures NameOk(hostname, mode) <==>
            hostname != "" && ValidDomainHostname(hostname) && WildcardFits(hostname, mode)
  {
    if hostname != "" && ValidDomainHostname(hostname) {
      StarIsWildcard(hostname);
    }
  }

  lemma AddIsJudged(env: Env, t: Table, req: AddRequest)
    ensures var v := JudgeAdd(env, t, req, AddTexts(req));
            && (v.Accept? <==> AddFine(env, t, req)) && (v.Accept? ==> v.row == AddRow(req))
  {
    if !req.mode.Unknown? {
      NameIs(req.hostname, AddMode(req));
      AddTlsIs(env, req);
      PortIs(req.port);
      NeighboursAre(t, req.hostname, AddMode(req), AddCertificate(req), AddProvider(req), None);
    }
    if JudgeAdd(env, t, req, AddTexts(req)).Accept? {
      AddStores(env, t, req);
    }
    hide ValidDomainHostname, ValidPath, ValidInternalPath, NormalizePath, NormalizeInternalPath, NameOk, WildcardFits,
         AddTls, ParseCertificate, ResolveDnsProvider, CheckDnsChallenge, AddCertificate, AddProvider, ValidatePort,
         PortOk, PortStored, NeighboursAgree, Agrees, AddRow;
  }

  lemma AddStores(env: Env, t: Table, req: AddRequest)
    requires JudgeAdd(env, t, req, AddTexts(req)).Accept?
    ensures !req.mode.Unknown? && JudgeAdd(env, t, req, AddTexts(req)).row == AddRow(req)
  {
    AddTlsIs(env, req);
    PortIs(req.port);
    hide ValidDomainHostname, ValidPath, ValidInternalPath, NormalizePath, NormalizeInternalPath, WildcardFits, AddTls,
         ParseCertificate, ResolveDnsProvider, CheckDnsChallenge, AddCertificate, AddProvider, ValidatePort, PortOk,
         PortStored, Agrees;
  }

  lemma NeighboursAre(t: Table, hostname: string, mode: Mode, certificate: Option<Id>, provider: Option<Id>,
      but: Option<Id>)
    ensures Agrees(t, hostname, mode, certificate, provider, but)
       <==> NeighboursAgree(t, hostname, mode, certificate, provider, but)
  {
  }

  /** An add succeeds exactly when it is fine, its place is free and nothing fails; then it stores its row alone. */
  lemma AddIff(env: Env, t: Table, id: Id, req: AddRequest)
    ensures Step(env, t, Add(id, req)).1 == 201 <==>
      && AddFine(env, t, req) && id !in t && PlaceFree(t, req.hostname, NormalizePath(req.path), None)
      && env.writeOk && env.resolveOk && env.proxyOk
    ensures Step(env, t, Add(id, req)).1 == 201 ==> Step(env, t, Add(id, req)).0 == t[id := AddRow(req)]
    ensures Step(env, t, Add(id, req)).1 == 409 <==>
      && AddFine(env, t, req) && id !in t && env.writeOk
      && !PlaceFree(t, req.hostname, NormalizePath(req.path), None)
    ensures Step(env, t, Add(id, req)).1 == 500 <==>
      && AddFine(env, t, req)
      && (id in t || !env.writeOk || (PlaceFree(t, req.hostname, NormalizePath(req.path), None)
                                      && !(env.resolveOk && env.proxyOk)))
  {
    AddIsJudged(env, t, req);
    AddIsRefused(env, t, req);
    hide JudgeAdd, AddTexts, AddFine;
    var v := JudgeAdd(env, t, req, AddTexts(req));
    assert CallTexts(t, Add(id, req)) == AddTexts(req);
    if v.Accept? {
      assert Taken(t, v.row.hostname, v.row.path, None) <==> !PlaceFree(t, v.row.hostname, v.row.path, None);
    }
  }

  lemma AddIsRefused(env: Env, t: Table, req: AddRequest)
    ensures var v := JudgeAdd(env, t, req, AddTexts(req)); v.Refuse? ==> v.status in {400, 403, 503}
  {
  }

  /** 403 is for who may not reach the application, and for a member who would issue with a DNS credential. */
  lemma AddForbiddenIff(env: Env, t: Table, id: Id, req: AddRequest)
    ensures Step(env, t, Add(id, req)).1 == 403 <==>
      || !env.allowed
      || (&& !req.mode.Unknown? && AddMode(req) == DnsChallenge && !env.admin
          && req.hostname != "" && ValidDomainHostname(req.hostname) && req.dnsProvider != Some(Garbled))
  {
    hide ValidPath, NormalizePath, NormalizeInternalPath, ValidDomainHostname;
  }

  // ----- Update -----

  /** The mode an update leaves the row in. */
  function UpdateMode(stored: Domain, req: UpdateRequest): Mode
    requires !req.mode.Unknown?
  {
    if req.mode == Omitted then stored.mode else req.mode.mode
  }

  /** A custom row needs a certificate named, or the one it has when neither it nor the mode is mentioned. */
  predicate CertificateOk(stored: Domain, req: UpdateRequest)
    requires !req.mode.Unknown?
  {
    UpdateMode(stored, req) == Custom ==> req.certificate.Names? || (req.certificate == Blank && req.mode == Omitted)
  }

  function UpdateCertificate(stored: Domain, req: UpdateRequest): Option<Id>
    requires !req.mode.Unknown?
  {
    if UpdateMode(stored, req) != Custom then None
    else if req.certificate.Names? then Some(req.certificate.id) else stored.certificate
  }

  function UpdateProvider(stored: Domain, req: UpdateRequest): Option<Id>
    requires !req.mode.Unknown?
  {
    if UpdateMode(stored, req) != DnsChallenge then None
    else if req.dnsProvider.None? then stored.dnsProvider else NamedBy(req.dnsProvider.value)
  }

  /** What the DNS challenge asks: the row does already just that, or it may be made to. */
  predicate ChallengeOk(env: Env, stored: Domain, req: UpdateRequest)
    requires !req.mode.Unknown?
  {
    UpdateMode(stored, req) == DnsChallenge ==>
      && req.dnsProvider != Some(Garbled)
      && var provider := UpdateProvider(stored, req);
         || (stored.mode == DnsChallenge && stored.dnsProvider == provider && stored.hostname == req.hostname)
         || (provider.Some? && MayIssue(env, provider.value))
  }

  /** The row an update stores: what the request names in its normal form, what it leaves out as it was. */
  function UpdateRow(stored: Domain, req: UpdateRequest): Domain
    requires !req.mode.Unknown?
  {
    Domain(app := stored.app, hostname := req.hostname,
           path := if req.path.Some? then NormalizePath(req.path.value) else stored.path,
           stripPath := if req.stripPath.Some? then req.stripPath.value else stored.stripPath,
           internalPath := if req.internalPath.Some? then NormalizeInternalPath(req.internalPath.value)
                           else stored.internalPath,
           sslEnabled := if req.sslEnabled.Some? then req.sslEnabled.value else stored.sslEnabled,
           forceHTTPS := UpdateMode(stored, req) != Off
                         && (if req.forceHTTPS.Some? then req.forceHTTPS.value else stored.forceHTTPS),
           mode := UpdateMode(stored, req),
           sslProvider := if req.sslProvider == "" then stored.sslProvider else req.sslProvider,
           credentials := stored.credentials,
           certificate := UpdateCertificate(stored, req), dnsProvider := UpdateProvider(stored, req),
           port := if req.port.Some? then PortStored(req.port) else stored.port,
           advancedConfig := if req.advancedConfig == "" then stored.advancedConfig else req.advancedConfig)
  }

  predicate PathsOk(req: UpdateRequest) {
    && (req.path.Some? ==> ValidPath(NormalizePath(req.path.value)))
    && (req.internalPath.Some? ==>
          ValidInternalPath(NormalizeInternalPath(req.internalPath.value)))
  }

  /** Everything an update of a row that is there needs before the write. */
  ghost predicate UpdateFine(env: Env, t: Table, id: Id, req: UpdateRequest)
    requires id in t
  {
    && !req.mode.Unknown? && NameOk(req.hostname, UpdateMode(t[id], req))
    && CertificateOk(t[id], req) && ChallengeOk(env, t[id], req) && PathsOk(req) && PortOk(req.port)
    && (env.listOk ==>
          NeighboursAgree(t, req.hostname, UpdateMode(t[id], req), UpdateCertificate(t[id], req),
                          UpdateProvider(t[id], req), Some(id)))
  }

  lemma UpdateTlsIs(env: Env, stored: Domain, req: UpdateRequest)
    requires !req.mode.Unknown?
    ensures var certificate := UpdatedCertificate(UpdateMode(stored, req), req, stored);
            var provider := ResolveDnsProvider(UpdateMode(stored, req), req.dnsProvider, stored.dnsProvider);
      && (CertificateOk(stored, req) && ChallengeOk(env, stored, req) <==>
            certificate.Some? && provider.Some? &&
            CheckDnsChallenge(env, req.hostname, UpdateMode(stored, req), provider.value, Some(stored)) == 0)
      && (certificate.Some? && provider.Some? ==>
            certificate.value == UpdateCertificate(stored, req) && provider.value == UpdateProvider(stored, req))
  {
  }

  lemma UpdateIsJudged(env: Env, t: Table, id: Id, req: UpdateRequest)
    requires id in t && !req.mode.Unknown? && req.hostname != "" && ValidDomainHostname(req.hostname)
    ensures var v := JudgeUpdate(env, t, id, t[id], req, UpdateTexts(req, t[id]));
            (v.Accept? <==> UpdateFine(env, t, id, req)) && (v.Accept? ==> v.row == UpdateRow(t[id], req))
  {
    NameIs(req.hostname, UpdateMode(t[id], req));
    UpdateTlsIs(env, t[id], req);
    PortIs(req.port);
    NeighboursAre(t, req.hostname, UpdateMode(t[id], req), UpdateCertificate(t[id], req), UpdateProvider(t[id], req),
                  Some(id));
    if JudgeUpdate(env, t, id, t[id], req, UpdateTexts(req, t[id])).Accept? {
      UpdateStores(env, t, id, req);
    }
    hide ValidDomainHostname, ValidPath, ValidInternalPath, NormalizePath, NormalizeInternalPath, NameOk, WildcardFits,
         CertificateOk, ChallengeOk, UpdatedCertificate, ResolveDnsProvider, CheckDnsChallenge, UpdateCertificate,
         UpdateProvider, ValidatePort, PortOk, PortStored, NeighboursAgree, Agrees, UpdateRow;
  }

  lemma UpdateStores(env: Env, t: Table, id: Id, req: UpdateRequest)
    requires id in t && !req.mode.Unknown?
    requires JudgeUpdate(env, t, id, t[id], req, UpdateTexts(req, t[id])).Accept?
    ensures JudgeUpdate(env, t, id, t[id], req, UpdateTexts(req, t[id])).row == UpdateRow(t[id], req)
  {
    UpdateTlsIs(env, t[id], req);
    PortIs(req.port);
    hide ValidDomainHostname, ValidPath, ValidInternalPath, NormalizePath, NormalizeInternalPath, WildcardFits,
         CertificateOk, ChallengeOk, UpdatedCertificate, ResolveDnsProvider, CheckDnsChallenge, UpdateCertificate,
         UpdateProvider, ValidatePort, PortOk, PortStored, Agrees;
  }

  /** An update succeeds exactly when it is fine, its place is free and nothing fails; then it changes its row alone. */
  lemma UpdateIff(env: Env, t: Table, id: Id, req: UpdateRequest)
    ensures Step(env, t, Update(id, req)).1 == 200 <==>
      && env.allowed && id in t && env.getOk && UpdateFine(env, t, id, req)
      && PlaceFree(t, req.hostname, UpdateRow(t[id], req).path, Some(id)) && env.writeOk
    ensures Step(env, t, Update(id, req)) ==
            (if Step(env, t, Update(id, req)).1 == 200 then t[id := UpdateRow(t[id], req)] else t,
             Step(env, t, Update(id, req)).1)
    ensures Step(env, t, Update(id, req)).1 == 500 <==>
      && env.allowed && id in t && env.getOk && UpdateFine(env, t, id, req)
      && !(PlaceFree(t, req.hostname, UpdateRow(t[id], req).path, Some(id)) && env.writeOk)
    ensures Step(env, t, Update(id, req)).1 == 404 <==>
      && env.allowed && req.hostname != "" && ValidDomainHostname(req.hostname) && !req.mode.Unknown?
      && (id !in t || !env.getOk)
    ensures env.allowed && (req.hostname == "" || !ValidDomainHostname(req.hostname) || req.mode.Unknown?) ==>
      Step(env, t, Update(id, req)).1 == 400
  {
    var call := Update(id, req);
    if id in t && !req.mode.Unknown? && req.hostname != "" && ValidDomainHostname(req.hostname) {
      UpdateIsJudged(env, t, id, req);
      UpdateIsRefused(env, t, id, req);
      assert CallTexts(t, call) == UpdateTexts(req, t[id]);
      var v := JudgeUpdate(env, t, id, t[id], req, UpdateTexts(req, t[id]));
      if v.Accept? {
        assert Taken(t, v.row.hostname, v.row.path, Some(id))
          <==> !PlaceFree(t, v.row.hostname, v.row.path, Some(id));
      }
    }
    hide JudgeUpdate, UpdateRow, ValidDomainHostname, PlaceFree, Taken;
  }

  lemma UpdateIsRefused(env: Env, t: Table, id: Id, req: UpdateRequest)
    requires id in t
    ensures var v := JudgeUpdate(env, t, id, t[id], req, UpdateTexts(req, t[id]));
            v.Refuse? ==> v.status in {400, 403, 503}
  {
    hide UpdateTexts, Agrees, UpdatedCertificate, ResolveDnsProvider;
  }

  // ----- Provision and remove -----

  /** A provisioned hostname is no wildcard, is served at the root without TLS, and agrees with its neighbours. */
  lemma ProvisionIff(env: Env, t: Table, id: Id, app: Id, host: string)
    ensures Step(env, t, Provision(id, app, host)).1 == 201 <==>
      && IsHostname(host) && (env.listOk ==> NeighboursAgree(t, host, Off, None, None, None))
      && id !in t && PlaceFree(t, host, "/", None) && env.writeOk && env.resolveOk && env.proxyOk
    ensures Step(env, t, Provision(id, app, host)).1 == 201 ==>
      Step(env, t, Provision(id, app, host)).0 ==
      t[id := Domain(app, host, "/", false, "", false, false, Off, "", "", None, None, None, "")]
    ensures Step(env, t, Provision(id, app, host)).1 == 400 <==>
      !IsHostname(host) || (env.listOk && !NeighboursAgree(t, host, Off, None, None, None))
    ensures Step(env, t, Provision(id, app, host)).1 in {201, 400, 409, 500}
  {
    NeighboursAre(t, host, Off, None, None, None);
    NormalizedRoot();
    assert Taken(t, host, "/", None) <==> !PlaceFree(t, host, "/", None);
    hide IsHostname, NormalizePath, NormalizeInternalPath, NeighboursAgree, Agrees, PlaceFree, Taken;
  }

  /** A row is removed exactly when it may be and both the proxy and the delete go through; nothing else goes. */
  lemma RemoveIff(env: Env, t: Table, id: Id)
    ensures Step(env, t, Remove(id)) ==
            if env.allowed && id in t && env.getOk && env.proxyOk && env.deleteOk then (t - {id}, 200)
            else (t, if !env.allowed then 403 else if id !in t || !env.getOk then 404 else 500)
  {
  }

  // ----- Runs -----

  lemma {:induction false} RunConcat(t: Table, a: seq<(Env, Call)>, b: seq<(Env, Call)>)
    ensures Run(t, a + b) == Run(Run(t, a), b)
    decreases |a|
  {
    hide Step;
    if a == [] {
      assert a + b == b;
    } else {
      assert (a + b)[0] == a[0] && (a + b)[1..] == a[1..] + b;
      RunConcat(Step(a[0].0, t, a[0].1).0, a[1..], b);
    }
  }

  lemma {:induction false} RunKeepsCoherent(t: Table, calls: seq<(Env, Call)>)
    requires AllCoherent(t)
    ensures AllCoherent(Run(t, calls))
    decreases |calls|
  {
    hide Step;
    if calls != [] {
      StepKeepsCoherent(calls[0].0, t, calls[0].1);
      RunKeepsCoherent(Step(calls[0].0, t, calls[0].1).0, calls[1..]);
    }
  }

  /** Requests on other rows leave a row bit for bit. */
  lemma {:induction false} RowStays(t: Table, calls: seq<(Env, Call)>, id: Id)
    requires id in t && forall c <- calls :: !((c.1.Update? || c.1.Remove?) && c.1.id == id)
    ensures id in Run(t, calls) && Run(t, calls)[id] == t[id]
    decreases |calls|
  {
    hide Judge, CallTexts;
    if calls != [] {
      assert calls[0] in calls && forall c <- calls[1..] :: c in calls;
      RowStays(Step(calls[0].0, t, calls[0].1).0, calls[1..], id);
    }
  }

  /**
    The last successful update that names a column decides it, in any run: whatever came before, and
    whatever comes after as long as the row is not removed and no update of it names the column again.
   */
  lemma LastNamedDecides(t: Table, before: seq<(Env, Call)>, env: Env, id: Id, req: UpdateRequest,
      after: seq<(Env, Call)>)
    requires AllCoherent(t) && Step(env, Run(t, before), Update(id, req)).1 == 200
    requires forall c <- after :: c.1 != Remove(id)
    ensures id in Run(t, before) && !req.mode.Unknown?
    ensures var calls := before + [(env, Update(id, req))] + after;
            id in Run(t, calls) && var row := Run(t, calls)[id];
      && (req.path.Some? && !NamesPath(after, id) ==> row.path == NormalizePath(req.path.value))
      && (req.port.Some? && !NamesPort(after, id) ==> row.port == PortStored(req.port))
      && ((forall c <- after :: !(c.1.Update? && c.1.id == id)) ==> row == UpdateRow(Run(t, before)[id], req))
      && (!NamesTls(after, id) ==>
            && row.mode == UpdateMode(Run(t, before)[id], req)
            && (row.mode == Custom && req.certificate.Names? ==> row.certificate == Some(req.certificate.id))
            && (row.mode == DnsChallenge && req.dnsProvider.Some? ==>
                  row.dnsProvider == NamedBy(req.dnsProvider.value)))
  {
    var was := Run(t, before);
    UpdateIff(env, was, id, req);
    RunKeepsCoherent(t, before);
    StepKeepsCoherent(env, was, Update(id, req));
    var now := Step(env, was, Update(id, req)).0;
    var one := [(env, Update(id, req))];
    RunConcat(t, before, one);
    RunConcat(t, before + one, after);
    assert one[1..] == [] && Run(was, one) == Run(now, []);
    UnnamedColumnsStay(now, after, id);
    if forall c <- after :: !(c.1.Update? && c.1.id == id) {
      RowStays(now, after, id);
    }
    hide Step, Run, NormalizePath;
  }
}
