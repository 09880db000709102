/**
  Which values the settings endpoint takes for which key, and what a run of requests leaves in the
  store (apps/api/internal/handler/settings.go): the laws of Settings stated on literal values.
 */
module SettingsLaws {
  import opened Base
  import opened Text
  import opened Settings
  import DomainRules

  // ----- One value -----

  /** The greatest number a numeric setting takes; nothing for a setting that is no number. */
  function LimitOf(key: Key): Option<nat> {
    match key
    case BackupRetainDays => Some(3650)
    case BackupRetainCount => Some(1000)
    case AppLogRetentionDays => Some(3650)
    case RequestLogRetentionDays => Some(3650)
    case AuditLogRetentionDays => Some(3650)
    case OrphanedBackupRetentionDays => Some(3650)
    case WafRetentionDays => Some(365)
    case HostMetricsRetentionHours => Some(87600)
    case _ => None
  }

  /** A numeric setting takes the numbers from 1 to its limit and the empty text; no zero, no negative, nothing else. */
  lemma NumbersIff(key: Key, n: nat, w: World)
    requires LimitOf(key).Some?
    ensures Accepts(key, Decimal(n), w) <==> 1 <= n <= LimitOf(key).value
    ensures !Accepts(key, "-" + Decimal(n), w) && Accepts(key, "", w)
    ensures forall v: string | v != "" && Atoi(v).None? :: !Accepts(key, v, w)
  {
    AtoiOfDecimal(n);
  }

  /** A switch takes true, false or nothing; a mode one of four or nothing. */
  lemma ChoicesIff(key: Key, v: string, w: World)
    ensures key in {BackupEnabled, HostShellEnabled, DailyCleanupEnabled, UpdateCheckEnabled} ==>
              (Accepts(key, v, w) <==> v in {"", "true", "false"})
    ensures key == DashboardSslMode ==>
              (Accepts(key, v, w) <==> v in {"", "automatic", "custom", "off", "dns_challenge"})
  {
  }

  /** The texts other parts of the system judge, or nothing; and a key that is not on the list takes nothing at all. */
  lemma JudgedIff(key: Key, v: string, w: World)
    ensures key == DashboardDomain ==> (Accepts(key, v, w) <==> v == "" || DomainRules.IsHostname(v))
    ensures key == DashboardCertificateId ==> (Accepts(key, v, w) <==> v == "" || w.isCertificate(v))
    ensures key == PublicIp ==> (Accepts(key, v, w) <==> v == "" || w.isIp(v))
    ensures key == BackupSchedule ==> (Accepts(key, v, w) <==> v == "" || w.isCron(v))
    ensures key.Unknown? ==> !Accepts(key, v, w)
  {
  }

  /** A character takes one to four bytes. */
  function BytesOf(c: char): nat {
    if c as int <= 127 then 1 else if c as int <= 2047 then 2 else if c as int <= 65535 then 3 else 4
  }

  /** A name of n characters of k bytes each fits when n times k does: two hundred bytes, fifty for a version. */
  lemma NamesIff(v: string, k: nat, w: World)
    requires forall c <- v :: BytesOf(c) == k
    ensures Accepts(InstanceName, v, w) <==> |v| * k <= 200
    ensures Accepts(UpdateSkipVersion, v, w) <==> |v| * k <= 50
  {
    LengthOfEqual(v, k);
  }

  lemma {:induction false} LengthOfEqual(v: string, k: nat)
    requires forall c <- v :: BytesOf(c) == k
    ensures ByteLength(v) == |v| * k
  {
    if v != "" {
      assert v[0] in v;
      LengthOfEqual(v[1..], k);
    }
  }

  // ----- One request -----

  ghost predicate Names(req: seq<Setting>, key: Key) { exists i | 0 <= i < |req| :: req[i].key == key }

  /** What a key ends up with: the last value the request has for it, trimmed, or else what is stored. */
  function Final(store: map<Key, string>, req: seq<Setting>, key: Key): string {
    if req == [] then (if key in store then TrimSpace(store[key]) else "")
    else if req[|req| - 1].key == key then TrimSpace(req[|req| - 1].value)
    else Final(store, req[..|req| - 1], key)
  }

  lemma {:induction false} OverriddenIsFinal(store: map<Key, string>, req: seq<Setting>, n: nat)
    requires n <= |req|
    ensures Overridden(store, TrimmedAll(req), n) ==
            Tls(Final(store, req[..n], DashboardDomain), Final(store, req[..n], DashboardSslMode),
                Final(store, req[..n], DashboardCertificateId))
  {
    if n > 0 {
      OverriddenIsFinal(store, req, n - 1);
      assert req[..n][..n - 1] == req[..n - 1];
    }
  }

  /** The triple a request leads to: what each of its keys ends up with, and automatic where no mode is chosen. */
  lemma EffectiveIs(store: map<Key, string>, req: seq<Setting>)
    ensures var mode := Final(store, req, DashboardSslMode);
            Effective(store, TrimmedAll(req)) ==
            Tls(Final(store, req, DashboardDomain), if mode == "" then "automatic" else mode,
                Final(store, req, DashboardCertificateId))
  {
    OverriddenIsFinal(store, req, |req|);
    assert req[..|req|] == req;
    hide Overridden, Final;
  }

  /**
    A request is refused exactly when one of its values is not taken, or it touches the dashboard and
    would leave it a hostname with an uploaded certificate to serve and none chosen.
   */
  lemma RefusedIff(store: map<Key, string>, req: seq<Setting>, w: World)
    ensures Refused(store, req, w) <==>
      || (exists i | 0 <= i < |req| :: !Accepts(req[i].key, TrimSpace(req[i].value), w))
      || (&& (Names(req, DashboardDomain) || Names(req, DashboardSslMode) || Names(req, DashboardCertificateId))
          && Final(store, req, DashboardDomain) != "" && Final(store, req, DashboardSslMode) == "custom"
          && Final(store, req, DashboardCertificateId) == "")
  {
    OverriddenIsFinal(store, req, |req|);
    assert req[..|req|] == req;
    hide Accepts, Overridden, Final;
  }

  /** A request that goes through gives each key it names the last of its values, trimmed, and leaves the others. */
  lemma {:induction false} WrittenIs(store: map<Key, string>, req: seq<Setting>, n: nat, key: Key)
    requires n <= |req|
    ensures var after := Written(store, TrimmedAll(req), n);
            if Names(req[..n], key) then key in after && after[key] == Final(store, req[..n], key)
            else (key in after <==> key in store) && (key in store ==> after[key] == store[key])
  {
    if n > 0 {
      WrittenIs(store, req, n - 1, key);
      assert req[..n][..n - 1] == req[..n - 1];
      NamesStep(req, n, key);
      hide Names;
    }
  }

  lemma NamesStep(req: seq<Setting>, n: nat, key: Key)
    requires 0 < n <= |req|
    ensures Names(req[..n], key) <==> Names(req[..n - 1], key) || req[n - 1].key == key
  {
    assert req[..n] == req[..n - 1] + [req[n - 1]];
    if Names(req[..n - 1], key) {
      var i :| 0 <= i < n - 1 && req[..n - 1][i].key == key;
      assert req[..n][i].key == key;
    }
    if Names(req[..n], key) && req[n - 1].key != key {
      var i :| 0 <= i < n && req[..n][i].key == key;
      assert req[..n - 1][i].key == key;
    }
    assert req[..n][n - 1] == req[n - 1];
  }

  // ----- Runs of requests -----

  /** Some request of the run had this value for this key, and it was taken when it came. */
  ghost predicate TakenInRun(reqs: seq<Request>, key: Key, v: string) {
    exists req <- reqs :: Accepts(key, v, req.world) && Names(req.settings, key)
  }

  lemma {:induction false} FinalIsTaken(store: map<Key, string>, req: seq<Setting>, w: World, key: Key)
    requires AllAccepted(req, w) && Names(req, key)
    ensures Accepts(key, Final(store, req, key), w)
  {
    var n := |req| - 1;
    assert Accepts(req[n].key, TrimSpace(req[n].value), w);
    if req[n].key != key {
      var i :| 0 <= i < |req| && req[i].key == key;
      assert req[..n][i].key == key;
      FinalIsTaken(store, req[..n], w, key);
    }
  }

  /**
    Whatever requests come, every stored value was there before or was taken for its key by a request
    that went through; so no run puts a key into the store that is not on the list, or changes one.
   */
  lemma {:induction false} OnlyTakenIsStored(store: map<Key, string>, reqs: seq<Request>, key: Key)
    ensures var after := After(store, reqs);
            && (key in after ==> (key in store && after[key] == store[key]) || TakenInRun(reqs, key, after[key]))
            && (key.Unknown? ==> (key in after <==> key in store) && (key in store ==> after[key] == store[key]))
  {
    hide Accepts;
    if reqs != [] {
      var n := |reqs| - 1;
      var req, before := reqs[n], After(store, reqs[..n]);
      OnlyTakenIsStored(store, reqs[..n], key);
      assert forall r <- reqs[..n] :: r in reqs;
      assert req in reqs;
      if !Refused(before, req.settings, req.world) {
        WrittenIs(before, req.settings, |req.settings|, key);
        assert req.settings[..|req.settings|] == req.settings;
        if Names(req.settings, key) {
          FinalIsTaken(before, req.settings, req.world, key);
          JudgedIff(key, Final(before, req.settings, key), req.world);
        }
      }
    }
  }
}
