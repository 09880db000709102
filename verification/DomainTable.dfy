/**
  The domains table under every run of add, update, provision and remove requests
  (apps/api/internal/handler/domains.go): what one request does to the rows, and what all
  reachable tables satisfy. DomainHandlers holds the handlers themselves.
 */
module DomainTable {
  import opened Base
  import opened DomainRules

  type Table = map<Id, Domain>

  datatype Verdict = Accept(row: Domain) | Refuse(status: nat)

  // ----- What one request does -----

  /** One certificate serves every path of a hostname, so rows that share it must agree on how. */
  predicate Compatible(s: Domain, mode: Mode, certificate: Option<Id>, dnsProvider: Option<Id>) {
    s.mode == mode && (mode.DnsChallenge? ==> s.dnsProvider == dnsProvider) &&
        (mode.Custom? ==> s.certificate == certificate)
  }

  /** checkHostTLSAgreement; exclude is the row being updated. */
  predicate Agrees(t: Table, hostname: string, mode: Mode, certificate: Option<Id>, dnsProvider: Option<Id>,
      exclude: Option<Id>) {
    forall id | id in t && exclude != Some(id) && t[id].hostname == hostname ::
        Compatible(t[id], mode, certificate, dnsProvider)
  }

  predicate Taken(t: Table, hostname: string, path: string, exclude: Option<Id>) {
    exists id :: id in t && exclude != Some(id) && t[id].hostname == hostname && t[id].path == path
  }

  /** AddDomain up to the insert: the row to store, or the status of the refusal. */
  function JudgeAdd(env: Env, t: Table, req: AddRequest, x: Texts): Verdict {
    if !env.allowed then Refuse(403)
    else if !x.hostOk || req.mode.Unknown? then Refuse(400)
    else
      var mode := if req.mode.Given? then req.mode.mode else Automatic;
      var certificate := ParseCertificate(mode, req.certificate);
      var dnsProvider := ResolveDnsProvider(mode, req.dnsProvider, None);
      if !WildcardFits(x.hostname, mode) || certificate.None? || dnsProvider.None? then Refuse(400)
      else
        var status := CheckDnsChallenge(env, x.hostname, mode, dnsProvider.value, None);
        var port := ValidatePort(req.port);
        if status != 0 then Refuse(status)
        else if !x.pathOk || !x.internalOk then Refuse(400)
        else if env.listOk && !Agrees(t, x.hostname, mode, certificate.value, dnsProvider.value, None) then Refuse(400)
        else if port.None? then Refuse(400)
        else Accept(Domain(req.app, x.hostname, x.path, req.stripPath, x.internalPath, req.sslEnabled,
                           CoerceForceHTTPS(mode, GetOr(req.forceHTTPS, req.sslEnabled)), mode, req.sslProvider, "",
                           certificate.value, dnsProvider.value, port.value, req.advancedConfig))
  }

  /**
    The certificate an update resolves to: kept unless the request names one or names a mode, cleared
    outside custom.
   */
  function UpdatedCertificate(mode: Mode, req: UpdateRequest, stored: Domain): Option<Option<Id>> {
    if !req.certificate.Blank? || !req.mode.Omitted? then ParseCertificate(mode, req.certificate)
    else if !mode.Custom? then Some(None)
    else Some(stored.certificate)
  }

  /** UpdateDomain up to the write, for a row that is there. */
  function JudgeUpdate(env: Env, t: Table, id: Id, stored: Domain, req: UpdateRequest, x: Texts): Verdict {
    var mode := if req.mode.Given? then req.mode.mode else stored.mode;
    var certificate := UpdatedCertificate(mode, req, stored);
    var dnsProvider := ResolveDnsProvider(mode, req.dnsProvider, stored.dnsProvider);
    if certificate.None? || dnsProvider.None? || !WildcardFits(x.hostname, mode) then Refuse(400)
    else
      var status := CheckDnsChallenge(env, x.hostname, mode, dnsProvider.value, Some(stored));
      var port := if req.port.Some? then ValidatePort(req.port) else Some(stored.port);
      if status != 0 then Refuse(status)
      else if !x.pathOk || !x.internalOk then Refuse(400)
      else if env.listOk && !Agrees(t, x.hostname, mode, certificate.value, dnsProvider.value, Some(id))
          then Refuse(400)
      else if port.None? then Refuse(400)
      else Accept(stored.(
        hostname := x.hostname, path := x.path, stripPath := GetOr(req.stripPath, stored.stripPath),
        internalPath := x.internalPath,
        sslEnabled := GetOr(req.sslEnabled, stored.sslEnabled),
        forceHTTPS := CoerceForceHTTPS(mode, GetOr(req.forceHTTPS, stored.forceHTTPS)),
        mode := mode, sslProvider := if req.sslProvider != "" then req.sslProvider else stored.sslProvider,
        certificate := certificate.value, dnsProvider := dnsProvider.value, port := port.value,
        advancedConfig := if req.advancedConfig != "" then req.advancedConfig else stored.advancedConfig))
  }

  /** ProvisionDomain up to the insert: TLS off, root path, no wildcard. */
  function JudgeProvision(env: Env, t: Table, app: Id, x: Texts): Verdict {
    if !x.hostOk then Refuse(400)
    else if env.listOk && !Agrees(t, x.hostname, Off, None, None, None) then Refuse(400)
    else Accept(Domain(app, x.hostname, x.path, false, x.internalPath, false, false, Off, "", "", None, None, None, ""))
  }

  /** createDomainRecord: insert, resolve the application, add the route, and take the row back when the route fails. */
  function Create(env: Env, t: Table, id: Id, row: Domain): (Table, nat) {
    if id in t || !env.writeOk then (t, 500)
    else if Taken(t, row.hostname, row.path, None) then (t, 409)
    else if !env.resolveOk then (t[id := row], 500)
    else if !env.proxyOk then (if env.deleteOk then t else t[id := row], 500)
    else (t[id := row], 201)
  }

  datatype Call =
    | Add(id: Id, add: AddRequest)
    | Update(id: Id, update: UpdateRequest)
    | Provision(id: Id, app: Id, host: string)
    | Remove(id: Id)

  /**
    The texts of a call; a remove has none, and an update of a missing row is refused before its paths
    are looked at.
   */
  function CallTexts(t: Table, call: Call): Texts {
    match call
    case Add(_, req) => AddTexts(req)
    case Update(id, req) =>
      if id in t then UpdateTexts(req, t[id])
      else Texts(req.hostname, req.hostname != "" && ValidDomainHostname(req.hostname), "", true, "", true)
    case Provision(_, _, host) => ProvisionTexts(host)
    case Remove(_) => Texts("", true, "", true, "", true)
  }

  function Judge(env: Env, t: Table, call: Call, x: Texts): Verdict {
    match call
    case Add(_, req) => JudgeAdd(env, t, req, x)
    case Update(id, req) =>
      if !env.allowed then Refuse(403)
      else if !x.hostOk || req.mode.Unknown? then Refuse(400)
      else if id !in t || !env.getOk then Refuse(404)
      else JudgeUpdate(env, t, id, t[id], req, x)
    case Provision(_, app, _) => JudgeProvision(env, t, app, x)
    case Remove(id) =>
      if !env.allowed then Refuse(403)
      else if id !in t || !env.getOk then Refuse(404)
      else if !env.proxyOk || !env.deleteOk then Refuse(500)
      else Accept(t[id])
  }

  /** What a verdict comes to: the table and the status. */
  function Apply(v: Verdict, env: Env, t: Table, call: Call): (Table, nat) {
    match v
    case Refuse(status) => (t, status)
    case Accept(row) =>
      match call
      case Remove(id) => (t - {id}, 200)
      case Update(id, _) =>
        if !env.writeOk || Taken(t, row.hostname, row.path, Some(id)) then (t, 500) else (t[id := row], 200)
      case Add(id, _) => Create(env, t, id, row)
      case Provision(id, _, _) => Create(env, t, id, row)
  }

  /** The table and the status after one request. */
  function Step(env: Env, t: Table, call: Call): (Table, nat) {
    Apply(Judge(env, t, call, CallTexts(t, call)), env, t, call)
  }

  function Run(t: Table, calls: seq<(Env, Call)>): Table
    decreases |calls|
  {
    if calls == [] then t else Run(Step(calls[0].0, t, calls[0].1).0, calls[1..])
  }

  // ----- What every reachable table satisfies -----

  ghost predicate AllCoherent(t: Table) { forall id | id in t :: Coherent(t[id]) }

  ghost predicate AllWellFormed(t: Table) { forall id | id in t :: WellFormed(t[id]) }

  /** Rows on one hostname share mode, certificate and provider. */
  ghost predicate HostsAgree(t: Table) {
    forall i, j | i in t && j in t && t[i].hostname == t[j].hostname :: SameTLS(t[i], t[j])
  }

  ghost predicate SameTLS(a: Domain, b: Domain) {
    a.mode == b.mode && a.certificate == b.certificate && a.dnsProvider == b.dnsProvider
  }

  ghost predicate PathsUnique(t: Table) {
    forall i, j | i in t && j in t && t[i].hostname == t[j].hostname && t[i].path == t[j].path :: i == j
  }

  ghost predicate Sound(t: Table) { AllCoherent(t) && HostsAgree(t) && PathsUnique(t) }

  lemma AcceptedIsCoherent(env: Env, t: Table, call: Call, x: Texts)
    requires AllCoherent(t) && Judge(env, t, call, x).Accept?
    requires call.Provision? && x.hostOk ==> !IsWildcard(x.hostname)
    ensures Coherent(Judge(env, t, call, x).row)
  {
  }

  lemma AcceptedHasTexts(env: Env, t: Table, call: Call, x: Texts)
    requires Judge(env, t, call, x).Accept? && !call.Remove? && (call.Provision? ==> x.pathOk && x.internalOk)
    ensures Accepted(x)
    ensures var row := Judge(env, t, call, x).row;
            row.hostname == x.hostname && row.path == x.path && row.internalPath == x.internalPath
  {
  }

  /** The other rows on a row's hostname do TLS as it does. */
  ghost predicate FitsIn(t: Table, id: Id, row: Domain) {
    forall j | j in t && j != id && t[j].hostname == row.hostname :: SameTLS(t[j], row)
  }

  lemma AcceptedAgrees(env: Env, t: Table, call: Call, x: Texts)
    requires env.listOk && !call.Remove? && Judge(env, t, call, x).Accept?
    ensures var row := Judge(env, t, call, x).row;
            Agrees(t, row.hostname, row.mode, row.certificate, row.dnsProvider,
                   if call.Update? then Some(call.id) else None)
  {
  }

  lemma AgreesFits(t: Table, id: Id, row: Domain, exclude: Option<Id>)
    requires AllCoherent(t) && Coherent(row) && (exclude == None || exclude == Some(id))
    requires Agrees(t, row.hostname, row.mode, row.certificate, row.dnsProvider, exclude)
    ensures FitsIn(t, id, row)
  {
    forall j | j in t && j != id && t[j].hostname == row.hostname ensures SameTLS(t[j], row) {
      assert Compatible(t[j], row.mode, row.certificate, row.dnsProvider) && Coherent(t[j]);
    }
  }

  lemma StoringKeepsSound(t: Table, id: Id, row: Domain)
    requires Sound(t) && Coherent(row) && FitsIn(t, id, row)
    requires !Taken(t, row.hostname, row.path, Some(id)) || (id !in t && !Taken(t, row.hostname, row.path, None))
    ensures Sound(t[id := row])
  {
    var u := t[id := row];
    forall i, j | i in u && j in u && u[i].hostname == u[j].hostname
      ensures SameTLS(u[i], u[j]) && (u[i].path == u[j].path ==> i == j)
    {
    }
  }

  lemma ApplyKeepsSound(v: Verdict, env: Env, t: Table, call: Call)
    requires Sound(t)
    requires v.Accept? && !call.Remove? ==> Coherent(v.row) && FitsIn(t, call.id, v.row)
    ensures Sound(Apply(v, env, t, call).0)
  {
    if v.Accept? && !call.Remove? && Apply(v, env, t, call).0 != t {
      StoringKeepsSound(t, call.id, v.row);
    }
  }

  lemma StepKeepsSound(env: Env, t: Table, call: Call)
    requires Sound(t) && env.listOk
    ensures Sound(Step(env, t, call).0)
  {
    var x := CallTexts(t, call);
    var v := Judge(env, t, call, x);
    if v.Accept? && !call.Remove? {
      if call.Provision? {
        ProvisionTextsAreWellFormed(call.host);
      }
      AcceptedIsCoherent(env, t, call, x);
      AcceptedAgrees(env, t, call, x);
      AgreesFits(t, call.id, v.row, if call.Update? then Some(call.id) else None);
    }
    ApplyKeepsSound(v, env, t, call);
  }

  /** Every table reached from the empty one by any run of requests whose sibling listings succeed is sound. */
  lemma {:induction false} RunKeepsSound(t: Table, calls: seq<(Env, Call)>)
    requires Sound(t) && forall c | c in calls :: c.0.listOk
    ensures Sound(Run(t, calls))
    decreases |calls|
  {
    if calls != [] {
      StepKeepsSound(calls[0].0, t, calls[0].1);
      RunKeepsSound(Step(calls[0].0, t, calls[0].1).0, calls[1..]);
    }
  }

  lemma CallTextsAreWellFormed(t: Table, call: Call)
    requires AllWellFormed(t) && !call.Remove? && (call.Update? ==> call.id in t)
    ensures Accepted(CallTexts(t, call)) ==> WellFormedTexts(CallTexts(t, call))
    ensures call.Provision? ==> CallTexts(t, call).pathOk && CallTexts(t, call).internalOk
  {
    match call {
      case Add(_, req) => AddTextsAreWellFormed(req);
      case Update(id, req) => UpdateTextsAreWellFormed(req, t[id]);
      case Provision(_, _, host) => ProvisionTextsAreWellFormed(host);
    }
  }

  lemma ApplyKeepsWellFormed(v: Verdict, env: Env, t: Table, call: Call)
    requires AllWellFormed(t) && (v.Accept? && !call.Remove? ==> WellFormed(v.row))
    ensures AllWellFormed(Apply(v, env, t, call).0)
  {
  }

  /** In every run at all, stored hostnames are valid and stored paths are normalised, rooted and clean. */
  lemma {:induction false} RunKeepsWellFormed(t: Table, calls: seq<(Env, Call)>)
    requires AllWellFormed(t)
    ensures AllWellFormed(Run(t, calls))
    decreases |calls|
  {
    if calls != [] {
      var env, call := calls[0].0, calls[0].1;
      var x := CallTexts(t, call);
      var v := Judge(env, t, call, x);
      if v.Accept? && !call.Remove? {
        CallTextsAreWellFormed(t, call);
        AcceptedHasTexts(env, t, call, x);
      }
      ApplyKeepsWellFormed(v, env, t, call);
      RunKeepsWellFormed(Step(env, t, call).0, calls[1..]);
    }
  }

  // ----- Failed requests -----

  /** The two ways in which a failed create leaves its row behind. */
  predicate LeavesOrphan(v: Verdict, env: Env, t: Table, call: Call) {
    && (call.Add? || call.Provision?) && v.Accept?
    && call.id !in t && env.writeOk && !Taken(t, v.row.hostname, v.row.path, None)
    && (!env.resolveOk || (!env.proxyOk && !env.deleteOk))
  }

  lemma RefusalsFail(env: Env, t: Table, call: Call, x: Texts)
    ensures Judge(env, t, call, x).Refuse? ==> Judge(env, t, call, x).status >= 400
  {
  }

  lemma ApplyFails(v: Verdict, env: Env, t: Table, call: Call)
    requires Apply(v, env, t, call).1 >= 400
    ensures Apply(v, env, t, call).0 == t <==> !LeavesOrphan(v, env, t, call)
  {
    if LeavesOrphan(v, env, t, call) {
      assert call.id in Apply(v, env, t, call).0;
    }
  }

  /**
    A request either succeeds, or leaves the table as it was, except exactly when a created row could
    not be taken back: the application did not resolve, or the route and the delete both failed.
   */
  lemma FailureChangesNothingIff(env: Env, t: Table, call: Call)
    ensures var v := Judge(env, t, call, CallTexts(t, call));
            Step(env, t, call).1 >= 400 ==> (Step(env, t, call).0 == t <==> !LeavesOrphan(v, env, t, call))
    ensures Step(env, t, call).1 < 400 ==> Judge(env, t, call, CallTexts(t, call)).Accept?
  {
    RefusalsFail(env, t, call, CallTexts(t, call));
    var v := Judge(env, t, call, CallTexts(t, call));
    if Apply(v, env, t, call).1 >= 400 {
      ApplyFails(v, env, t, call);
    }
  }

  /** The requests of a run that succeeded. */
  function Succeeded(t: Table, calls: seq<(Env, Call)>): seq<(Env, Call)>
    decreases |calls|
  {
    if calls == [] then []
    else
      var (next, status) := Step(calls[0].0, t, calls[0].1);
      (if status < 400 then [calls[0]] else []) + Succeeded(next, calls[1..])
  }

  /** No request of the run leaves an orphan row. */
  ghost predicate NoOrphans(t: Table, calls: seq<(Env, Call)>)
    decreases |calls|
  {
    calls != [] ==>
      var env, call := calls[0].0, calls[0].1;
      && !LeavesOrphan(Judge(env, t, call, CallTexts(t, call)), env, t, call)
      && NoOrphans(Step(env, t, call).0, calls[1..])
  }

  /** Failed requests can be struck out of a run: the table is the one the successful requests alone lead to. */
  lemma {:induction false} FailuresLeaveNoTrace(t: Table, calls: seq<(Env, Call)>)
    requires NoOrphans(t, calls)
    ensures Run(t, Succeeded(t, calls)) == Run(t, calls)
    decreases |calls|
  {
    hide Step, Judge, CallTexts, LeavesOrphan;
    if calls != [] {
      var env, call := calls[0].0, calls[0].1;
      var next, status := Step(env, t, call).0, Step(env, t, call).1;
      FailuresLeaveNoTrace(next, calls[1..]);
      if status < 400 {
        StruckOutRest(t, calls, next);
      } else {
        FailureChangesNothingIff(env, t, call);
        assert next == t;
        assert Succeeded(t, calls) == Succeeded(next, calls[1..]);
      }
    }
  }

  lemma StruckOutRest(t: Table, calls: seq<(Env, Call)>, next: Table)
    requires calls != [] && Step(calls[0].0, t, calls[0].1).0 == next && Step(calls[0].0, t, calls[0].1).1 < 400
    ensures Run(t, Succeeded(t, calls)) == Run(next, Succeeded(next, calls[1..]))
  {
    hide Step;
    var kept := Succeeded(t, calls);
    assert kept[0] == calls[0] && kept[1..] == Succeeded(next, calls[1..]);
  }

  // ----- Who may use a DNS credential -----

  /** The names for which each DNS credential issues. */
  ghost predicate Issues(t: Table, hostname: string, provider: Id) {
    exists id :: id in t && t[id].mode.DnsChallenge? && t[id].hostname == hostname &&
        t[id].dnsProvider == Some(provider)
  }

  lemma MemberRow(env: Env, t: Table, call: Call, x: Texts)
    requires !env.admin && !call.Remove? && Judge(env, t, call, x).Accept? &&
             Judge(env, t, call, x).row.mode.DnsChallenge?
    ensures var row := Judge(env, t, call, x).row;
            call.id in t && t[call.id].mode.DnsChallenge? && t[call.id].hostname == row.hostname &&
                t[call.id].dnsProvider == row.dnsProvider
  {
  }

  lemma StoredRowIssues(v: Verdict, env: Env, t: Table, call: Call, hostname: string, provider: Id)
    requires Issues(Apply(v, env, t, call).0, hostname, provider)
    requires v.Accept? && !call.Remove? && v.row.mode.DnsChallenge? ==>
               call.id in t && t[call.id].mode.DnsChallenge? && t[call.id].hostname == v.row.hostname &&
                   t[call.id].dnsProvider == v.row.dnsProvider
    ensures Issues(t, hostname, provider)
  {
    var next := Apply(v, env, t, call).0;
    var id :| id in next && next[id].mode.DnsChallenge? && next[id].hostname == hostname &&
        next[id].dnsProvider == Some(provider);
    assert id in t && t[id].mode.DnsChallenge? && t[id].hostname == hostname && t[id].dnsProvider == Some(provider);
  }

  /** A run of requests by non-administrators lets no DNS credential issue for a name it did not issue for before. */
  lemma {:induction false} MembersGainNoCredential(t: Table, calls: seq<(Env, Call)>, hostname: string, provider: Id)
    requires forall c | c in calls :: !c.0.admin
    requires Issues(Run(t, calls), hostname, provider)
    ensures Issues(t, hostname, provider)
    decreases |calls|
  {
    if calls != [] {
      var env, call := calls[0].0, calls[0].1;
      MembersGainNoCredential(Step(env, t, call).0, calls[1..], hostname, provider);
      var x := CallTexts(t, call);
      var v := Judge(env, t, call, x);
      if v.Accept? && !call.Remove? && v.row.mode.DnsChallenge? {
        MemberRow(env, t, call, x);
      }
      StoredRowIssues(v, env, t, call, hostname, provider);
    }
  }

  // ----- Keep, clear, set -----

  /** A PUT that names the hostname and nothing else. */
  function BareUpdate(hostname: string): UpdateRequest {
    UpdateRequest(hostname, None, None, None, None, None, Omitted, "", Blank, None, None, "")
  }

  lemma BareUpdateKeeps(env: Env, t: Table, id: Id, x: Texts)
    requires Sound(t) && id in t && x == Texts(t[id].hostname, true, t[id].path, true, t[id].internalPath, true)
    ensures JudgeUpdate(env, t, id, t[id], BareUpdate(t[id].hostname), x) == Accept(t[id])
  {
    var row := t[id];
    assert Agrees(t, row.hostname, row.mode, row.certificate, row.dnsProvider, Some(id));
  }

  /**
    In a reachable table such a request on a row's own hostname is accepted from anyone who may reach
    the row, whatever the proxy and the DNS providers answer, and changes nothing at all.
   */
  lemma BareUpdateChangesNothing(env: Env, t: Table, id: Id)
    requires Sound(t) && AllWellFormed(t) && id in t && env.allowed && env.getOk && env.writeOk
    ensures Step(env, t, Update(id, BareUpdate(t[id].hostname))) == (t, 200)
  {
    var call, row := Update(id, BareUpdate(t[id].hostname)), t[id];
    var x := CallTexts(t, call);
    assert WellFormed(row);
    BareUpdateKeeps(env, t, id, x);
    assert Judge(env, t, call, x) == Accept(row);
    assert t[id := row] == t;
  }

  /**
    An update changes no column that its request leaves out; the two TLS references and the redirect
    follow the mode.
   */
  lemma OmittedColumnsStay(env: Env, t: Table, id: Id, stored: Domain, req: UpdateRequest)
    requires Coherent(stored) && JudgeUpdate(env, t, id, stored, req, UpdateTexts(req, stored)).Accept?
    ensures var row := JudgeUpdate(env, t, id, stored, req, UpdateTexts(req, stored)).row;
            && row.app == stored.app && row.credentials == stored.credentials && row.hostname == req.hostname
            && (req.path.None? ==> row.path == stored.path)
            && (req.internalPath.None? ==> row.internalPath == stored.internalPath)
            && (req.port.None? ==> row.port == stored.port)
            && (req.mode.Omitted? ==> row.mode == stored.mode)
            && (req.mode.Omitted? && req.certificate.Blank? ==> row.certificate == stored.certificate)
            && (req.dnsProvider.None? && row.mode.DnsChallenge? ==> row.dnsProvider == stored.dnsProvider)
            && (req.mode.Omitted? && req.forceHTTPS.None? ==> row.forceHTTPS == stored.forceHTTPS)
  {
  }

  /** Which columns the run's updates of one row name. */
  ghost predicate NamesPath(calls: seq<(Env, Call)>, id: Id) {
    exists c <- calls :: c.1.Update? && c.1.id == id && c.1.update.path.Some?
  }

  ghost predicate NamesPort(calls: seq<(Env, Call)>, id: Id) {
    exists c <- calls :: c.1.Update? && c.1.id == id && c.1.update.port.Some?
  }

  ghost predicate NamesTls(calls: seq<(Env, Call)>, id: Id) {
    exists c <- calls :: c.1.Update? && c.1.id == id
      && !(c.1.update.mode.Omitted? && c.1.update.certificate.Blank? && c.1.update.dnsProvider.None?)
  }

  /** What a row keeps of itself through calls that do not name it. */
  ghost predicate KeepsUnnamed(a: Domain, b: Domain, calls: seq<(Env, Call)>, id: Id) {
    && b.app == a.app && b.credentials == a.credentials
    && (!NamesPath(calls, id) ==> b.path == a.path)
    && (!NamesPort(calls, id) ==> b.port == a.port)
    && (!NamesTls(calls, id) ==> SameTLS(b, a))
  }

  lemma UpdateKeepsUnnamed(env: Env, t: Table, call: Call, row: Domain)
    requires call.Update? && call.id in t && Coherent(t[call.id])
    requires JudgeUpdate(env, t, call.id, t[call.id], call.update, UpdateTexts(call.update, t[call.id])) == Accept(row)
    ensures KeepsUnnamed(t[call.id], row, [(env, call)], call.id)
  {
    assert [(env, call)][0] in [(env, call)];
    OmittedColumnsStay(env, t, call.id, t[call.id], call.update);
  }

  lemma RowKeepsUnnamed(env: Env, t: Table, call: Call, id: Id)
    requires id in t && Coherent(t[id]) && call != Remove(id)
    ensures id in Step(env, t, call).0 && KeepsUnnamed(t[id], Step(env, t, call).0[id], [(env, call)], id)
  {
    hide JudgeUpdate, JudgeAdd, JudgeProvision, UpdateTexts, AddTexts, ProvisionTexts;
    var v := Judge(env, t, call, CallTexts(t, call));
    if call.Update? && call.id == id && v.Accept? {
      UpdateKeepsUnnamed(env, t, call, v.row);
    }
  }

  lemma StepKeepsCoherent(env: Env, t: Table, call: Call)
    requires AllCoherent(t)
    ensures AllCoherent(Step(env, t, call).0)
  {
    var x := CallTexts(t, call);
    if call.Provision? {
      ProvisionTextsAreWellFormed(call.host);
    }
    if Judge(env, t, call, x).Accept? {
      AcceptedIsCoherent(env, t, call, x);
    }
  }

  /**
    Through any run of requests a row that is not removed stays, with its application and its stored
    credentials, and keeps its path, its port and the way it does TLS unless an update of it names
    them; whatever else happens to the table and whichever requests fail.
   */
  lemma {:induction false} UnnamedColumnsStay(t: Table, calls: seq<(Env, Call)>, id: Id)
    requires AllCoherent(t) && id in t && forall c <- calls :: c.1 != Remove(id)
    ensures id in Run(t, calls) && KeepsUnnamed(t[id], Run(t, calls)[id], calls, id)
    decreases |calls|
  {
    hide Step, Coherent;
    if calls != [] {
      var head, rest := [calls[0]], calls[1..];
      assert calls[0] in calls && forall c <- rest :: c in calls;
      assert head[0] == calls[0] && forall c <- head :: c == calls[0];
      StepKeepsCoherent(calls[0].0, t, calls[0].1);
      RowKeepsUnnamed(calls[0].0, t, calls[0].1, id);
      UnnamedColumnsStay(Step(calls[0].0, t, calls[0].1).0, rest, id);
    }
  }

  lemma ApplyIsFrozen(v: Verdict, env: Env, t: Table, call: Call, i: Id, j: Id)
    requires HostsAgree(t) && HostsAgree(Apply(v, env, t, call).0) && i != j && i in t && j in t &&
             t[i].hostname == t[j].hostname
    requires var u := Apply(v, env, t, call).0; i in u && j in u && u[i].hostname == u[j].hostname
    ensures var u := Apply(v, env, t, call).0; SameTLS(u[i], t[i]) && SameTLS(u[j], t[j])
  {
  }

  /**
    A host served on two paths is frozen: no one request can change how either row does TLS while both
    stay on one host.
   */
  lemma SharedHostIsFrozen(env: Env, t: Table, call: Call, i: Id, j: Id)
    requires Sound(t) && env.listOk && i != j && i in t && j in t && t[i].hostname == t[j].hostname
    requires var u := Step(env, t, call).0; i in u && j in u && u[i].hostname == u[j].hostname
    ensures var u := Step(env, t, call).0; SameTLS(u[i], t[i]) && SameTLS(u[j], t[j])
  {
    StepKeepsSound(env, t, call);
    ApplyIsFrozen(Judge(env, t, call, CallTexts(t, call)), env, t, call, i, j);
  }

  // ----- Without the sibling listing -----

  function PlainAdd(host: string, path: string, mode: Mode): AddRequest {
    AddRequest(0, host, path, false, "", true, None, Given(mode), "", Blank, None, None, "")
  }

  lemma PlainTexts(host: string, path: string, mode: Mode)
    requires host != "" && ValidDomainHostname(host) && StoredPath(path)
    ensures AddTexts(PlainAdd(host, path, mode)) == Texts(host, true, path, true, "", true)
  {
    NormalizeStoredPath(path);
    NormalizedRoot();
  }

  lemma PlainAddIsAccepted(env: Env, t: Table, host: string, path: string, mode: Mode, x: Texts)
    requires env.allowed && !env.listOk && (mode.Automatic? || mode.Off?) && !IsWildcard(host)
    requires x == Texts(host, true, path, true, "", true)
    ensures var v := JudgeAdd(env, t, PlainAdd(host, path, mode), x);
            v.Accept? && v.row.hostname == host && v.row.path == path && v.row.mode == mode
  {
  }

  lemma PlainStep(env: Env, t: Table, id: Id, host: string, path: string, mode: Mode) returns (row: Domain)
    requires env.allowed && !env.listOk && env.writeOk && env.resolveOk && env.proxyOk && (mode.Automatic? || mode.Off?)
    requires host != "" && ValidDomainHostname(host) && !IsWildcard(host) && StoredPath(path)
    requires id !in t && !Taken(t, host, path, None)
    ensures row.hostname == host && row.path == path && row.mode == mode
    ensures Step(env, t, Add(id, PlainAdd(host, path, mode))) == (t[id := row], 201)
  {
    var call := Add(id, PlainAdd(host, path, mode));
    var x := Texts(host, true, path, true, "", true);
    PlainTexts(host, path, mode);
    PlainAddIsAccepted(env, t, host, path, mode, x);
    assert CallTexts(t, call) == x;
    row := JudgeAdd(env, t, PlainAdd(host, path, mode), x).row;
  }

  /**
    When the listing of a hostname's rows fails the check is skipped, and two requests make one
    hostname contradict itself.
   */
  lemma FailedListingBreaksAgreement(env: Env, host: string, a: string, b: string)
    requires env.allowed && !env.listOk && env.writeOk && env.resolveOk && env.proxyOk
    requires host != "" && ValidDomainHostname(host) && !IsWildcard(host) && StoredPath(a) && StoredPath(b) && a != b
    ensures var first := Step(env, map[], Add(0, PlainAdd(host, a, Automatic)));
            var second := Step(env, first.0, Add(1, PlainAdd(host, b, Off)));
            first.1 == 201 && second.1 == 201 && !HostsAgree(second.0)
  {
    var row0 := PlainStep(env, map[], 0, host, a, Automatic);
    var t: Table := map[][0 := row0];
    var row1 := PlainStep(env, t, 1, host, b, Off);
    TwoModesDisagree(t, row1);
  }

  /** The request is a remove, or changes nothing, or would have been accepted with a listing that succeeds. */
  predicate NeedsNoListing(env: Env, t: Table, call: Call) {
    call.Remove? || Step(env, t, call).0 == t || Judge(env.(listOk := true), t, call, CallTexts(t, call)).Accept?
  }

  /** Of any request whose listing fails: exactly such a one keeps the table sound. */
  lemma FailedListingIsSoundIff(env: Env, t: Table, call: Call)
    requires Sound(t) && !env.listOk
    ensures Sound(Step(env, t, call).0) <==> NeedsNoListing(env, t, call)
  {
    hide CallTexts, Coherent;
    var x, listed := CallTexts(t, call), env.(listOk := true);
    if Judge(listed, t, call, x).Accept? {
      ListingOnlyRefuses(env, t, call, x);
      StepKeepsSound(listed, t, call);
    } else if call.Remove? {
      RemovingKeepsSound(env, t, call);
    } else if Step(env, t, call).0 != t {
      SkippedCheckDisagrees(env, t, call, x);
    }
  }

  /** The table is sound after every request of the run. */
  ghost predicate AlwaysSound(t: Table, calls: seq<(Env, Call)>)
    decreases |calls|
  {
    Sound(t) && (calls != [] ==> AlwaysSound(Step(calls[0].0, t, calls[0].1).0, calls[1..]))
  }

  /** Every request of the run whose listing fails needs none. */
  predicate ListingsDoNotMatter(t: Table, calls: seq<(Env, Call)>)
    decreases |calls|
  {
    calls != [] ==>
      var env, call := calls[0].0, calls[0].1;
      (env.listOk || NeedsNoListing(env, t, call)) && ListingsDoNotMatter(Step(env, t, call).0, calls[1..])
  }

  /** A run keeps the table sound throughout exactly when every request of it whose listing fails needs none. */
  lemma {:induction false} AlwaysSoundIff(t: Table, calls: seq<(Env, Call)>)
    requires Sound(t)
    ensures AlwaysSound(t, calls) <==> ListingsDoNotMatter(t, calls)
    decreases |calls|
  {
    hide Step, NeedsNoListing, Sound;
    if calls != [] {
      var env, call := calls[0].0, calls[0].1;
      if env.listOk {
        StepKeepsSound(env, t, call);
      } else {
        FailedListingIsSoundIff(env, t, call);
      }
      if Sound(Step(env, t, call).0) {
        AlwaysSoundIff(Step(env, t, call).0, calls[1..]);
      }
    }
  }

  /** A listing that succeeds changes no verdict but to a refusal. */
  lemma ListingOnlyRefuses(env: Env, t: Table, call: Call, x: Texts)
    requires Judge(env.(listOk := true), t, call, x).Accept?
    ensures Judge(env, t, call, x) == Judge(env.(listOk := true), t, call, x)
    ensures Apply(Judge(env, t, call, x), env, t, call) ==
            Apply(Judge(env, t, call, x), env.(listOk := true), t, call)
  {
  }

  lemma RemovingKeepsSound(env: Env, t: Table, call: Call)
    requires Sound(t) && call.Remove?
    ensures Sound(Step(env, t, call).0)
  {
  }

  /** What the skipped check would have refused disagrees with a row that is there. */
  lemma SkippedCheckDisagrees(env: Env, t: Table, call: Call, x: Texts)
    requires !env.listOk && !call.Remove? && !Judge(env.(listOk := true), t, call, x).Accept?
    requires Apply(Judge(env, t, call, x), env, t, call).0 != t
    ensures !HostsAgree(Apply(Judge(env, t, call, x), env, t, call).0)
  {
    hide Coherent;
    var row, next := Judge(env, t, call, x).row, Apply(Judge(env, t, call, x), env, t, call).0;
    var exclude := if call.Update? then Some(call.id) else None;
    assert next == t[call.id := row];
    assert !Agrees(t, row.hostname, row.mode, row.certificate, row.dnsProvider, exclude);
    var j :| j in t && exclude != Some(j) && t[j].hostname == row.hostname &&
             !Compatible(t[j], row.mode, row.certificate, row.dnsProvider);
    assert next[call.id] == row && next[j] == t[j] && !SameTLS(t[j], row);
  }

  lemma TwoModesDisagree(t: Table, row: Domain)
    requires 0 in t && t[0].hostname == row.hostname && t[0].mode != row.mode
    ensures !HostsAgree(t[1 := row])
  {
    var u := t[1 := row];
    assert 0 in u && 1 in u && u[0].hostname == u[1].hostname && !SameTLS(u[0], u[1]);
  }
}
