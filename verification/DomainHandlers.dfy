/**
  The domain handlers as they run: early returns in the source's order, a loop over the sibling
  rows, writes to the stored table one at a time. Each is proved to be the step of DomainTable.
 */
module DomainHandlers {
  import opened Base
  import opened DomainRules
  import opened DomainTable

  class Handler {
    var rows: Table

    /** checkHostTLSAgreement: a failed listing lets the request through. */
    method CheckHostTLSAgreement(env: Env, hostname: string, mode: Mode, certificate: Option<Id>,
        dnsProvider: Option<Id>, exclude: Option<Id>)
      returns (ok: bool)
      ensures ok <==> (env.listOk ==> Agrees(rows, hostname, mode, certificate, dnsProvider, exclude))
    {
      hide Compatible, Agrees, AgreesBut;
      if !env.listOk {
        return true;
      }
      var listing := rows;
      var rest := listing.Keys;
      AgreesAtEnds(listing, hostname, mode, certificate, dnsProvider, exclude);
      while rest != {}
        invariant rest <= listing.Keys
        invariant AgreesBut(listing, rest, hostname, mode, certificate, dnsProvider, exclude)
        decreases rest
      {
        var id :| id in rest;
        AgreesStep(listing, rest, id, hostname, mode, certificate, dnsProvider, exclude);
        rest := rest - {id};
        if listing[id].hostname == hostname && exclude != Some(id) {
          var agrees := SiblingAgrees(listing[id], mode, certificate, dnsProvider);
          if !agrees {
            return false;
          }
        }
      }
      return true;
    }

    /** The rows outside a set are no reason to refuse. */
    static ghost predicate AgreesBut(t: Table, rest: set<Id>, hostname: string, mode: Mode, certificate: Option<Id>,
        dnsProvider: Option<Id>, exclude: Option<Id>)
    {
      forall id | id in t && id !in rest && exclude != Some(id) && t[id].hostname == hostname ::
        Compatible(t[id], mode, certificate, dnsProvider)
    }

    static lemma AgreesAtEnds(t: Table, hostname: string, mode: Mode, certificate: Option<Id>, dnsProvider: Option<Id>,
        exclude: Option<Id>)
      ensures AgreesBut(t, t.Keys, hostname, mode, certificate, dnsProvider, exclude)
      ensures AgreesBut(t, {}, hostname, mode, certificate, dnsProvider, exclude) <==>
              Agrees(t, hostname, mode, certificate, dnsProvider, exclude)
    {
      hide Compatible;
    }

    static lemma AgreesStep(t: Table, rest: set<Id>, id: Id, hostname: string, mode: Mode, certificate: Option<Id>,
        dnsProvider: Option<Id>, exclude: Option<Id>)
      requires id in t && AgreesBut(t, rest, hostname, mode, certificate, dnsProvider, exclude)
      ensures if t[id].hostname == hostname && exclude != Some(id) && !Compatible(t[id], mode, certificate, dnsProvider)
              then !Agrees(t, hostname, mode, certificate, dnsProvider, exclude)
              else AgreesBut(t, rest - {id}, hostname, mode, certificate, dnsProvider, exclude)
    {
      hide Compatible;
    }

    static method SiblingAgrees(s: Domain, mode: Mode, certificate: Option<Id>, dnsProvider: Option<Id>)
        returns (ok: bool)
      ensures ok <==> Compatible(s, mode, certificate, dnsProvider)
    {
      if s.mode != mode {
        return false;
      }
      if mode.DnsChallenge? && s.dnsProvider != dnsProvider {
        return false;
      }
      if mode.Custom? && s.certificate != certificate {
        return false;
      }
      return true;
    }

    /** createDomainRecord. */
    method CreateDomainRecord(env: Env, id: Id, row: Domain) returns (status: nat)
      modifies this
      ensures (rows, status) == Create(env, old(rows), id, row)
    {
      if id in rows || !env.writeOk {
        return 500;
      }
      if exists other :: other in rows && rows[other].hostname == row.hostname && rows[other].path == row.path {
        assert Taken(rows, row.hostname, row.path, None);
        return 409;
      }
      rows := rows[id := row];
      if !env.resolveOk {
        return 500;
      }
      if !env.proxyOk {
        if env.deleteOk {
          rows := rows - {id};
          assert rows == old(rows);
        }
        return 500;
      }
      return 201;
    }

    method AddDomain(env: Env, id: Id, req: AddRequest) returns (status: nat)
      modifies this
      ensures (rows, status) == Step(env, old(rows), Add(id, req))
    {
      ghost var x := AddTexts(req);
      if !env.allowed {
        return 403;
      }
      if req.hostname == "" || !ValidDomainHostname(req.hostname) {
        return 400;
      }
      if req.mode.Unknown? {
        return 400;
      }
      var mode := if req.mode.Given? then req.mode.mode else Automatic;
      if !WildcardFits(req.hostname, mode) {
        return 400;
      }
      var forceHTTPS := CoerceForceHTTPS(mode, GetOr(req.forceHTTPS, req.sslEnabled));
      var certificate := ParseCertificate(mode, req.certificate);
      var dnsProvider := ResolveDnsProvider(mode, req.dnsProvider, None);
      if certificate.None? || dnsProvider.None? {
        return 400;
      }
      status := CheckDnsChallenge(env, req.hostname, mode, dnsProvider.value, None);
      if status != 0 {
        return;
      }
      var path, internalPath := NormalizePath(req.path), NormalizeInternalPath(req.internalPath);
      if !ValidPath(path) || !ValidInternalPath(internalPath) {
        return 400;
      }
      status := AddChecked(env, id, req, mode, forceHTTPS, certificate.value, dnsProvider.value, path, internalPath, x);
    }

    /** The last checks of AddDomain and the insert. */
    method AddChecked(env: Env, id: Id, req: AddRequest, mode: Mode, forceHTTPS: bool, certificate: Option<Id>,
        dnsProvider: Option<Id>,
                      path: string, internalPath: string, ghost x: Texts)
      returns (status: nat)
      requires x == Texts(req.hostname, true, path, true, internalPath, true)
      requires env.allowed && !req.mode.Unknown? && mode == (if req.mode.Given? then req.mode.mode else Automatic)
      requires WildcardFits(req.hostname, mode) &&
               forceHTTPS == CoerceForceHTTPS(mode, GetOr(req.forceHTTPS, req.sslEnabled))
      requires ParseCertificate(mode, req.certificate) == Some(certificate) &&
               ResolveDnsProvider(mode, req.dnsProvider, None) == Some(dnsProvider)
      requires CheckDnsChallenge(env, req.hostname, mode, dnsProvider, None) == 0
      modifies this
      ensures (rows, status) == Apply(JudgeAdd(env, old(rows), req, x), env, old(rows), Add(id, req))
    {
      var agrees := CheckHostTLSAgreement(env, req.hostname, mode, certificate, dnsProvider, None);
      if !agrees {
        return 400;
      }
      var port := ValidatePort(req.port);
      if port.None? {
        return 400;
      }
      status := CreateDomainRecord(env, id,
        Domain(req.app, req.hostname, path, req.stripPath, internalPath, req.sslEnabled, forceHTTPS, mode,
            req.sslProvider, "",
               certificate, dnsProvider, port.value, req.advancedConfig));
    }

    method UpdateDomain(env: Env, id: Id, req: UpdateRequest) returns (status: nat)
      modifies this
      ensures (rows, status) == Step(env, old(rows), Update(id, req))
    {
      if !env.allowed {
        return 403;
      }
      if req.hostname == "" || !ValidDomainHostname(req.hostname) {
        return 400;
      }
      if req.mode.Unknown? {
        return 400;
      }
      if id !in rows || !env.getOk {
        return 404;
      }
      status := UpdateRow(env, id, req, UpdateTexts(req, rows[id]));
    }

    /** UpdateDomain for a row that is there: every column the request omits falls back to the stored one. */
    method UpdateRow(env: Env, id: Id, req: UpdateRequest, x: Texts) returns (status: nat)
      requires id in rows
      modifies this
      ensures (rows, status) ==
              Apply(JudgeUpdate(env, old(rows), id, old(rows)[id], req, x), env, old(rows), Update(id, req))
    {
      var stored := rows[id];
      var mode := stored.mode;
      if req.mode.Given? {
        mode := req.mode.mode;
      }
      var certificate := ResolveCertificate(mode, req, stored);
      var dnsProvider := ResolveDnsProvider(mode, req.dnsProvider, stored.dnsProvider);
      if certificate.None? || dnsProvider.None? {
        return 400;
      }
      if !WildcardFits(x.hostname, mode) {
        return 400;
      }
      status := CheckDnsChallenge(env, x.hostname, mode, dnsProvider.value, Some(stored));
      if status != 0 {
        return;
      }
      if !x.pathOk || !x.internalOk {
        return 400;
      }
      var agrees := CheckHostTLSAgreement(env, x.hostname, mode, certificate.value, dnsProvider.value, Some(id));
      if !agrees {
        return 400;
      }
      var port := ResolvePort(req, stored);
      if port.None? {
        return 400;
      }
      var row := stored.(
        hostname := x.hostname, path := x.path, stripPath := GetOr(req.stripPath, stored.stripPath),
        internalPath := x.internalPath,
        sslEnabled := GetOr(req.sslEnabled, stored.sslEnabled),
        forceHTTPS := CoerceForceHTTPS(mode, GetOr(req.forceHTTPS, stored.forceHTTPS)),
        mode := mode, sslProvider := if req.sslProvider != "" then req.sslProvider else stored.sslProvider,
        certificate := certificate.value, dnsProvider := dnsProvider.value, port := port.value,
        advancedConfig := if req.advancedConfig != "" then req.advancedConfig else stored.advancedConfig);
      status := WriteRow(env, id, row);
    }

    static method ResolveCertificate(mode: Mode, req: UpdateRequest, stored: Domain)
        returns (certificate: Option<Option<Id>>)
      ensures certificate == UpdatedCertificate(mode, req, stored)
    {
      certificate := Some(stored.certificate);
      if !req.certificate.Blank? || !req.mode.Omitted? {
        certificate := ParseCertificate(mode, req.certificate);
        if certificate.None? {
          return;
        }
      }
      if !mode.Custom? {
        certificate := Some(None);
      }
    }

    /** An absent port keeps the override, 0 clears it. */
    static method ResolvePort(req: UpdateRequest, stored: Domain) returns (port: Option<Option<int>>)
      ensures port == if req.port.Some? then ValidatePort(req.port) else Some(stored.port)
    {
      port := Some(stored.port);
      if req.port.Some? {
        port := ValidatePort(req.port);
      }
    }

    /**
      The UPDATE statement: the unique constraint on hostname and path refuses a clash. The route is
      rebuilt best-effort.
     */
    method WriteRow(env: Env, id: Id, row: Domain) returns (status: nat)
      modifies this
      ensures (rows, status) ==
              if !env.writeOk || Taken(old(rows), row.hostname, row.path, Some(id)) then (old(rows), 500)
                                else (old(rows)[id := row], 200)
    {
      if !env.writeOk {
        return 500;
      }
      if exists other :: other in rows && other != id && rows[other].hostname == row.hostname &&
          rows[other].path == row.path {
        assert Taken(rows, row.hostname, row.path, Some(id));
        return 500;
      }
      rows := rows[id := row];
      return 200;
    }

    method ProvisionDomain(env: Env, id: Id, app: Id, host: string) returns (status: nat)
      modifies this
      ensures (rows, status) == Step(env, old(rows), Provision(id, app, host))
    {
      if !IsHostname(host) {
        return 400;
      }
      var agrees := CheckHostTLSAgreement(env, host, Off, None, None, None);
      if !agrees {
        return 400;
      }
      status := CreateDomainRecord(env, id,
        Domain(app, host, NormalizePath(""), false, NormalizeInternalPath(""), false, false, Off, "", "", None, None,
            None, ""));
    }

    /** The route goes first: when the proxy refuses, the row stays. */
    method RemoveDomain(env: Env, id: Id) returns (status: nat)
      modifies this
      ensures (rows, status) == Step(env, old(rows), Remove(id))
    {
      if !env.allowed {
        return 403;
      }
      if id !in rows || !env.getOk {
        return 404;
      }
      if !env.proxyOk {
        return 500;
      }
      if !env.deleteOk {
        return 500;
      }
      rows := rows - {id};
      return 200;
    }
  }
}
