/**
  The settings endpoint (apps/api/internal/handler/settings.go): every setting of a request is
  validated before any is written, and the dashboard's TLS triple is judged as it will be.
 */
module Settings {
  import opened Base
  import opened Text
  import DomainRules

  /** The nineteen settings the endpoint writes, and any other name. */
  datatype Key =
    | DashboardDomain | DashboardSslMode | DashboardCertificateId
    | PublicIp
    | BackupEnabled | BackupSchedule | BackupRetainDays | BackupRetainCount
    | HostShellEnabled | DailyCleanupEnabled | UpdateCheckEnabled
    | InstanceName | UpdateSkipVersion
    | AppLogRetentionDays | RequestLogRetentionDays | AuditLogRetentionDays | OrphanedBackupRetentionDays
    | HostMetricsRetentionHours | WafRetentionDays
    | Unknown(name: string)

  datatype Setting = Setting(key: Key, value: string)

  /**
    What other parts of the system say of a text: it is an IP address, a cron expression, the id of a
    stored certificate.
   */
  datatype World = World(isIp: string -> bool, isCron: string -> bool, isCertificate: string -> bool)

  const AUTOMATIC := "automatic"
  const CUSTOM := "custom"
  const OFF := "off"
  const DNS_CHALLENGE := "dns_challenge"

  /** ValidSSLMode: the empty mode counts as automatic. */
  predicate ValidSslMode(mode: string) {
    mode == "" || mode == OFF || mode == AUTOMATIC || mode == CUSTOM || mode == DNS_CHALLENGE
  }

  /** The length in bytes of a text's UTF-8 form (section 3 of RFC 3629). */
  function ByteLength(s: string): nat {
    if s == "" then 0
    else
      var c := s[0] as int;
      (if c < 0x80 then 1 else if c < 0x800 then 2 else if c < 0x10000 then 3 else 4) + ByteLength(s[1..])
  }

  /** A whole number from 1 to the limit, or nothing. */
  predicate ValidRetention(v: string, limit: int) { v == "" || (Atoi(v).Some? && 1 <= Atoi(v).value <= limit) }

  predicate ValidBoolean(v: string) { v == "" || v == "true" || v == "false" }

  /** Whether a trimmed value is accepted for a key. */
  predicate Accepts(key: Key, v: string, w: World) {
    match key
    case DashboardDomain => v == "" || DomainRules.IsHostname(v)
    case DashboardSslMode => ValidSslMode(v)
    case DashboardCertificateId => v == "" || w.isCertificate(v)
    case PublicIp => v == "" || w.isIp(v)
    case BackupSchedule => v == "" || w.isCron(v)
    case BackupRetainDays => ValidRetention(v, 3650)
    case BackupRetainCount => ValidRetention(v, 1000)
    case HostShellEnabled | DailyCleanupEnabled | BackupEnabled | UpdateCheckEnabled => ValidBoolean(v)
    case InstanceName => ByteLength(v) <= 200
    case UpdateSkipVersion => ByteLength(v) <= 50
    case AppLogRetentionDays | RequestLogRetentionDays | AuditLogRetentionDays | OrphanedBackupRetentionDays =>
        ValidRetention(v, 3650)
    case WafRetentionDays => ValidRetention(v, 365)
    case HostMetricsRetentionHours => ValidRetention(v, 87600)
    case Unknown(_) => false
  }

  predicate IsDashboard(key: Key) { key.DashboardDomain? || key.DashboardSslMode? || key.DashboardCertificateId? }

  // ----- The dashboard's TLS triple -----

  datatype Tls = Tls(domain: string, mode: string, certificate: string)

  function Stored(store: map<Key, string>, key: Key): string { if key in store then TrimSpace(store[key]) else "" }

  function Override(t: Tls, s: Setting): Tls {
    match s.key
    case DashboardDomain => t.(domain := s.value)
    case DashboardSslMode => t.(mode := s.value)
    case DashboardCertificateId => t.(certificate := s.value)
    case _ => t
  }

  /** The stored triple overridden by the first n settings of a request. */
  function Overridden(store: map<Key, string>, req: seq<Setting>, n: nat): Tls
    requires n <= |req|
  {
    if n == 0 then Tls(Stored(store, DashboardDomain), Stored(store, DashboardSslMode),
        Stored(store, DashboardCertificateId))
    else Override(Overridden(store, req, n - 1), req[n - 1])
  }

  function Defaulted(t: Tls): Tls { if t.mode == "" then t.(mode := AUTOMATIC) else t }

  function Effective(store: map<Key, string>, req: seq<Setting>): Tls { Defaulted(Overridden(store, req, |req|)) }

  /** The triple as the store alone gives it. */
  function ReadBack(store: map<Key, string>): Tls { Effective(store, []) }

  /** A dashboard with a hostname that is to serve an uploaded certificate has none to serve. */
  predicate Broken(t: Tls) { t.domain != "" && t.mode == CUSTOM && t.certificate == "" }

  // ----- Validation -----

  function Trimmed(s: Setting): Setting { s.(value := TrimSpace(s.value)) }

  function TrimmedAll(req: seq<Setting>): (r: seq<Setting>)
    ensures |r| == |req|
  {
    seq(|req|, i requires 0 <= i < |req| => Trimmed(req[i]))
  }

  ghost predicate AllAccepted(req: seq<Setting>, w: World) {
    forall i | 0 <= i < |req| :: Accepts(req[i].key, TrimSpace(req[i].value), w)
  }

  predicate TouchesDashboard(req: seq<Setting>) { exists i | 0 <= i < |req| :: IsDashboard(req[i].key) }

  /** A request is refused for a setting of its own, or for the triple it would leave. */
  ghost predicate Refused(store: map<Key, string>, req: seq<Setting>, w: World) {
    !AllAccepted(req, w) || (TouchesDashboard(req) && Broken(Effective(store, TrimmedAll(req))))
  }

  /** The store after the first n settings were written. */
  function Written(store: map<Key, string>, req: seq<Setting>, n: nat): map<Key, string>
    requires n <= |req|
  {
    if n == 0 then store else Written(store, req, n - 1)[req[n - 1].key := req[n - 1].value]
  }

  // ----- The prediction -----

  ghost predicate AllTrimmed(req: seq<Setting>) { forall i | 0 <= i < |req| :: TrimSpace(req[i].value) == req[i].value }

  /**
    The triple predicted from the stored settings overridden by the request is the triple read back
    after the first n writes, whatever keys repeat.
   */
  lemma {:induction false} Predicted(store: map<Key, string>, req: seq<Setting>, n: nat)
    requires n <= |req| && AllTrimmed(req)
    ensures Overridden(store, req, n) == Overridden(Written(store, req, n), [], 0)
  {
    if n > 0 {
      Predicted(store, req, n - 1);
    }
  }

  /** A request that names no dashboard setting leaves the triple alone. */
  lemma {:induction false} OthersLeaveTriple(store: map<Key, string>, req: seq<Setting>, n: nat)
    requires n <= |req| && !TouchesDashboard(req)
    ensures Overridden(Written(store, req, n), [], 0) == Overridden(store, [], 0)
  {
    if n > 0 {
      OthersLeaveTriple(store, req, n - 1);
      assert !IsDashboard(req[n - 1].key);
    }
  }

  lemma TrimmedIsTrimmed(req: seq<Setting>)
    ensures AllTrimmed(TrimmedAll(req)) && (TouchesDashboard(TrimmedAll(req)) <==> TouchesDashboard(req))
  {
    forall i | 0 <= i < |req| ensures TrimSpace(TrimmedAll(req)[i].value) == TrimmedAll(req)[i].value {
      TrimSpaceEnds(req[i].value);
    }
    forall i | 0 <= i < |req| ensures TrimmedAll(req)[i].key == req[i].key {
    }
  }

  /** An accepted request never leaves the dashboard without the certificate it is to serve. */
  lemma AcceptedKeepsWhole(store: map<Key, string>, req: seq<Setting>, w: World)
    requires !Broken(ReadBack(store)) && !Refused(store, req, w)
    ensures !Broken(ReadBack(Written(store, TrimmedAll(req), |req|)))
    ensures ReadBack(Written(store, TrimmedAll(req), |req|)) == Effective(store, TrimmedAll(req))
  {
    TrimmedIsTrimmed(req);
    Predicted(store, TrimmedAll(req), |req|);
    if !TouchesDashboard(req) {
      OthersLeaveTriple(store, TrimmedAll(req), |req|);
    }
  }

  datatype Reply = Updated | NotApplied | BadRequest | WriteFailed

  class Endpoint {
    var stored: map<Key, string>

    constructor (stored: map<Key, string>)
      ensures this.stored == stored
    {
      this.stored := stored;
    }

    /** effectiveDashboardTLS: the stored values, then a loop over the request. */
    method EffectiveDashboardTls(req: seq<Setting>) returns (t: Tls)
      ensures t == Effective(stored, req)
    {
      t := Tls(Stored(stored, DashboardDomain), Stored(stored, DashboardSslMode),
          Stored(stored, DashboardCertificateId));
      for i := 0 to |req|
        invariant t == Overridden(stored, req, i)
      {
        match req[i].key {
          case DashboardDomain => t := t.(domain := req[i].value);
          case DashboardSslMode => t := t.(mode := req[i].value);
          case DashboardCertificateId => t := t.(certificate := req[i].value);
          case _ =>
        }
      }
      if t.mode == "" {
        t := t.(mode := AUTOMATIC);
      }
    }

    /** The validation loop rewrites each value in place; it stops at the first one refused. */
    method Validate(request: seq<Setting>, w: World) returns (ok: bool, req: seq<Setting>, changingDashboard: bool)
      ensures ok <==> AllAccepted(request, w)
      ensures ok ==> req == TrimmedAll(request) && (changingDashboard <==> TouchesDashboard(request))
    {
      req, changingDashboard := request, false;
      for i := 0 to |request|
        invariant |req| == |request|
        invariant forall k | 0 <= k < i ::
                  req[k] == Trimmed(request[k]) && Accepts(request[k].key, TrimSpace(request[k].value), w)
        invariant forall k | i <= k < |request| :: req[k] == request[k]
        invariant changingDashboard <==> exists k | 0 <= k < i :: IsDashboard(request[k].key)
      {
        var s := req[i];
        var v := TrimSpace(s.value);
        if !Accepts(s.key, v, w) {
          return false, req, changingDashboard;
        }
        req := req[i := s.(value := v)];
        changingDashboard := changingDashboard || IsDashboard(s.key);
      }
      ok := true;
    }

    /** The write loop, which is not a transaction. */
    method WriteAll(req: seq<Setting>, failsAt: Option<nat>) returns (ok: bool)
      modifies this
      ensures ok <==> failsAt.None? || |req| <= failsAt.value
      ensures stored == Written(old(stored), req, if ok then |req| else failsAt.value)
    {
      for i := 0 to |req|
        invariant stored == Written(old(stored), req, i)
        invariant failsAt.Some? ==> i <= failsAt.value
      {
        if failsAt == Some(i) {
          return false;
        }
        stored := stored[req[i].key := req[i].value];
      }
      return true;
    }

    /** failsAt is the first write the database refuses, applied whether the proxy takes the new settings. */
    method UpdateSettings(request: seq<Setting>, w: World, failsAt: Option<nat>, applied: bool) returns (r: Reply)
      modifies this
      ensures r.BadRequest? <==> Refused(old(stored), request, w)
      ensures r.BadRequest? ==> stored == old(stored)
      ensures r.WriteFailed? <==> !r.BadRequest? && failsAt.Some? && failsAt.value < |request|
      ensures r.WriteFailed? ==> stored == Written(old(stored), TrimmedAll(request), failsAt.value)
      ensures r.Updated? || r.NotApplied? ==>
        && stored == Written(old(stored), TrimmedAll(request), |request|)
        && (r.NotApplied? <==> TouchesDashboard(request) && !applied)
        && (!Broken(ReadBack(old(stored))) ==> !Broken(ReadBack(stored)))
    {
      var ok, req, changingDashboard := Validate(request, w);
      if !ok {
        return BadRequest;
      }
      var t := EffectiveDashboardTls(req);
      if changingDashboard && t.domain != "" && t.mode == CUSTOM && t.certificate == "" {
        return BadRequest;
      }
      ghost var was := stored;
      ok := WriteAll(req, failsAt);
      if !ok {
        return WriteFailed;
      }
      if !Broken(ReadBack(was)) {
        AcceptedKeepsWhole(was, request, w);
      }
      if changingDashboard && !applied {
        return NotApplied;
      }
      return Updated;
    }
  }

  // ----- Runs of requests -----

  /** A request, and what the rest of the system says of texts when it comes. */
  datatype Request = Request(settings: seq<Setting>, world: World)

  /** The store after some requests; a refused one writes nothing and no write fails. */
  ghost function After(store: map<Key, string>, reqs: seq<Request>): map<Key, string> {
    if reqs == [] then store
    else
      var before, req := After(store, reqs[..|reqs| - 1]), reqs[|reqs| - 1];
      if Refused(before, req.settings, req.world) then before
      else Written(before, TrimmedAll(req.settings), |req.settings|)
  }

  /**
    No run of requests takes the dashboard to a hostname in custom mode without a certificate, however
    the domains, certificates and providers change between them.
   */
  lemma {:induction false} NeverBroken(store: map<Key, string>, reqs: seq<Request>)
    requires !Broken(ReadBack(store))
    ensures !Broken(ReadBack(After(store, reqs)))
  {
    if reqs != [] {
      var before, req := After(store, reqs[..|reqs| - 1]), reqs[|reqs| - 1];
      NeverBroken(store, reqs[..|reqs| - 1]);
      if !Refused(before, req.settings, req.world) {
        AcceptedKeepsWhole(before, req.settings, req.world);
      }
    }
  }

  /** Of a repeated key the last value is stored. */
  lemma {:induction false} LastOneWins(store: map<Key, string>, req: seq<Setting>, n: nat, i: nat)
    requires i < n <= |req| && forall k | i < k < n :: req[k].key != req[i].key
    ensures req[i].key in Written(store, req, n) && Written(store, req, n)[req[i].key] == req[i].value
  {
    if i < n - 1 {
      LastOneWins(store, req, n - 1, i);
    }
  }

  // ----- Where the writes stop half-way -----

  /** The store after the first n writes of a request gives a dashboard that can be served. */
  ghost predicate WholeAfter(store: map<Key, string>, req: seq<Setting>, n: nat)
    requires n <= |req|
  {
    !Broken(ReadBack(Written(store, TrimmedAll(req), n)))
  }

  /**
    A prefix of the request predicts a dashboard that cannot be served; a fold over the request finds
    it before any write.
   */
  ghost predicate SomePrefixBreaks(store: map<Key, string>, req: seq<Setting>) {
    exists n | 0 <= n <= |req| :: Broken(Defaulted(Overridden(store, TrimmedAll(req), n)))
  }

  /**
    The writes are not one transaction. Of any request: wherever its writes may stop the dashboard
    can be served, exactly when no prefix of the request predicts otherwise.
   */
  lemma HalfWritesWholeIff(store: map<Key, string>, req: seq<Setting>)
    ensures (forall n | 0 <= n <= |req| :: WholeAfter(store, req, n)) <==> !SomePrefixBreaks(store, req)
  {
    TrimmedIsTrimmed(req);
    forall n | 0 <= n <= |req|
      ensures WholeAfter(store, req, n) <==> !Broken(Defaulted(Overridden(store, TrimmedAll(req), n)))
    {
      Predicted(store, TrimmedAll(req), n);
    }
  }

  /** An accepted request can fail the condition: mode before certificate, on an install without a certificate. */
  lemma HalfWrittenBreaks(store: map<Key, string>, certificate: string, w: World)
    requires Stored(store, DashboardDomain) != "" && Stored(store, DashboardCertificateId) == ""
    requires certificate != "" && TrimSpace(certificate) == certificate && w.isCertificate(certificate)
    ensures var req := [Setting(DashboardSslMode, CUSTOM), Setting(DashboardCertificateId, certificate)];
            !Refused(store, req, w) && !WholeAfter(store, req, 1)
  {
    var req := [Setting(DashboardSslMode, CUSTOM), Setting(DashboardCertificateId, certificate)];
    assert TrimSpace(CUSTOM) == CUSTOM;
    assert TrimmedAll(req) == req;
    assert Overridden(store, req, 2) == Override(Overridden(store, req, 1), req[1]);
    assert Written(store, req, 1) == Written(store, req, 0)[DashboardSslMode := CUSTOM];
    assert ReadBack(Written(store, req, 1)) == Tls(Stored(store, DashboardDomain), CUSTOM, "");
  }

  /** A setting that rules out a broken dashboard by itself. */
  predicate Protects(s: Setting) {
    match s.key
    case DashboardDomain => s.value == ""
    case DashboardSslMode => s.value != CUSTOM
    case DashboardCertificateId => s.value != ""
    case _ => false
  }

  /** The part of a triple that a key stands for, as a setting. */
  function PartOf(t: Tls, key: Key): Setting
    requires IsDashboard(key)
  {
    Setting(key, match key case DashboardDomain => t.domain case DashboardSslMode => t.mode case _ => t.certificate)
  }

  /** A triple is whole exactly when one of its three parts protects it. */
  lemma WholeIff(t: Tls)
    ensures !Broken(Defaulted(t)) <==> exists key | IsDashboard(key) :: Protects(PartOf(t, key))
  {
    if !Broken(Defaulted(t)) {
      var key :=
        if t.domain == "" then DashboardDomain
        else if t.mode != CUSTOM then DashboardSslMode
        else DashboardCertificateId;
      assert IsDashboard(key) && Protects(PartOf(t, key));
    }
  }

  /** After any prefix of a request each part is what the last setting of its key says, or what was there. */
  lemma {:induction false} PartStays(store: map<Key, string>, req: seq<Setting>, n: nat, m: nat, key: Key)
    requires IsDashboard(key) && n <= m <= |req| && Protects(PartOf(Overridden(store, req, n), key))
    requires forall i | n <= i < m && req[i].key == key :: Protects(req[i])
    ensures Protects(PartOf(Overridden(store, req, m), key))
  {
    if n < m {
      PartStays(store, req, n, m - 1, key);
    }
  }

  lemma {:induction false} NothingYet(store: map<Key, string>, req: seq<Setting>, k: nat)
    requires k <= |req| && forall i | 0 <= i < k :: !IsDashboard(req[i].key)
    ensures Overridden(store, req, k) == Overridden(store, req, 0)
  {
    if k > 0 {
      NothingYet(store, req, k - 1);
    }
  }

  /**
    Every request whose first dashboard setting protects, and is not undone by a later setting of
    its key, is safe wherever its writes stop; whatever else it sets, with any repeats.
   */
  lemma ProtectingFirstIsSafe(store: map<Key, string>, req: seq<Setting>, k: nat)
    requires !Broken(ReadBack(store)) && k < |req| && IsDashboard(req[k].key)
    requires forall i | 0 <= i < k :: !IsDashboard(req[i].key)
    requires forall i | k <= i < |req| && req[i].key == req[k].key :: Protects(Trimmed(req[i]))
    ensures forall n | 0 <= n <= |req| :: WholeAfter(store, req, n)
  {
    var r := TrimmedAll(req);
    forall n | 0 <= n <= |req| ensures !Broken(Defaulted(Overridden(store, r, n))) {
      if n <= k {
        NothingYet(store, r, n);
      } else {
        NothingYet(store, r, k);
        assert Overridden(store, r, k + 1) == Override(Overridden(store, r, k), r[k]);
        assert PartOf(Overridden(store, r, k + 1), r[k].key) == r[k];
        PartStays(store, r, k + 1, n, r[k].key);
        WholeIff(Overridden(store, r, n));
      }
    }
    HalfWritesWholeIff(store, req);
  }

  /** The request with one setting put first. */
  function PutFirst(req: seq<Setting>, k: nat): (r: seq<Setting>)
    requires k < |req|
  {
    [req[k]] + req[..k] + req[k + 1..]
  }

  /**
    Every accepted request that names a key at most once can be written safely: it is safe as it
    stands, or one of its own settings put first makes it so.
   */
  lemma SafeOrderExists(store: map<Key, string>, req: seq<Setting>, w: World)
    requires !Broken(ReadBack(store)) && !Refused(store, req, w)
    requires forall i, j | 0 <= i < j < |req| :: req[i].key != req[j].key
    ensures || (forall n | 0 <= n <= |req| :: WholeAfter(store, req, n))
            || exists k | 0 <= k < |req| ::
                 var r := PutFirst(req, k);
                 multiset(r) == multiset(req) && forall n | 0 <= n <= |r| :: WholeAfter(store, r, n)
  {
    var r := TrimmedAll(req);
    AcceptedKeepsWhole(store, req, w);
    var last := Overridden(store, r, |r|);
    WholeIff(last);
    var key :| IsDashboard(key) && Protects(PartOf(last, key));
    if k :| 0 <= k < |req| && req[k].key == key {
      LastPart(store, r, k, |r|);
      SafeWhenFirst(store, req, k);
    } else {
      AlwaysProtected(store, r, key, |r|);
      forall n | 0 <= n <= |req| ensures !Broken(Defaulted(Overridden(store, r, n))) {
        AlwaysProtected(store, r, key, n);
        WholeIff(Overridden(store, r, n));
      }
      HalfWritesWholeIff(store, req);
    }
  }

  lemma {:induction false} LastPart(store: map<Key, string>, r: seq<Setting>, k: nat, n: nat)
    requires k < n <= |r| && IsDashboard(r[k].key) && forall i | k < i < n :: r[i].key != r[k].key
    ensures PartOf(Overridden(store, r, n), r[k].key) == r[k]
  {
    if k + 1 < n {
      LastPart(store, r, k, n - 1);
    }
  }

  /** A part no setting names stays what it was. */
  lemma {:induction false} AlwaysProtected(store: map<Key, string>, r: seq<Setting>, key: Key, n: nat)
    requires n <= |r| && IsDashboard(key) && forall i | 0 <= i < |r| :: r[i].key != key
    ensures PartOf(Overridden(store, r, n), key) == PartOf(Overridden(store, r, 0), key)
  {
    if n > 0 {
      AlwaysProtected(store, r, key, n - 1);
    }
  }

  lemma PutFirstReorders(req: seq<Setting>, k: nat)
    requires k < |req|
    ensures multiset(PutFirst(req, k)) == multiset(req)
  {
    assert req == req[..k] + [req[k]] + req[k + 1..];
  }

  lemma SafeWhenFirst(store: map<Key, string>, req: seq<Setting>, k: nat)
    requires !Broken(ReadBack(store)) && k < |req| && IsDashboard(req[k].key) && Protects(Trimmed(req[k]))
    requires forall i, j | 0 <= i < j < |req| :: req[i].key != req[j].key
    ensures var r := PutFirst(req, k);
            multiset(r) == multiset(req) && forall n | 0 <= n <= |r| :: WholeAfter(store, r, n)
  {
    hide WholeAfter;
    var r := PutFirst(req, k);
    PutFirstReorders(req, k);
    forall i | 0 < i < |r| ensures r[i].key != r[0].key {
      assert r[i] == if i <= k then req[i - 1] else req[i];
    }
    ProtectingFirstIsSafe(store, r, 0);
  }
}
