/**
  Whole-set replacement of an application's environment variables
  (apps/api/internal/handler/envvars.go): validation, the transaction, and what the audit log says of it.
 */
module EnvVars {
  import opened Base
  import opened Keyring
  import opened Sorting

  /** One submitted row. */
  datatype Input = Input(key: string, value: string, isSecret: bool, untouched: bool)

  /** One stored row. */
  datatype Stored = Stored(blob: Bytes, isSecret: bool)

  datatype Prepared = Prepared(key: string, stored: Stored)

  datatype Problem = InvalidKey(key: string) | DuplicateKey(key: string) | EncryptFailed

  /** The keyring; the number says which row of the request is being encrypted, so that each draws its own bytes. */
  datatype Vault = Vault(encrypt: (string, nat) -> Option<Bytes>, decrypt: Bytes -> Option<string>)

  ghost predicate Sound(v: Vault) {
    forall value: string, i: nat | v.encrypt(value, i).Some? :: v.decrypt(v.encrypt(value, i).value) == Some(value)
  }

  predicate IsLetter(c: char) { 'A' <= c <= 'Z' || 'a' <= c <= 'z' || c == '_' }

  /** The key shape ^[A-Za-z_][A-Za-z0-9_]*$. */
  predicate ValidKey(key: string) {
    key != "" && IsLetter(key[0]) && forall c <- key :: IsLetter(c) || '0' <= c <= '9'
  }

  /** A key is a letter or underscore and then letters, underscores and digits; here by their ASCII codes. */
  lemma ValidKeyIff(head: char, tail: string)
    ensures !ValidKey("")
    ensures ValidKey([head] + tail) <==>
            IsWord(head as int) && forall c <- tail :: IsWord(c as int) || 48 <= c as int <= 57
  {
    var key := [head] + tail;
    assert forall c <- key :: c == head || c in tail;
    assert forall c <- tail :: c in key;
    assert head in key;
  }

  predicate IsWord(code: int) { 65 <= code <= 90 || 97 <= code <= 122 || code == 95 }

  // ----- prepareEnvVars -----

  datatype Preparation = Ready(out: seq<Prepared>, seen: set<string>) | Refused(problem: Problem)

  /** A row marked Unchanged (untouched here) keeps the stored ciphertext of its key; any other is encrypted. */
  function BlobFor(row: Input, i: nat, existing: map<string, Bytes>, v: Vault): Option<Bytes> {
    if row.untouched && row.key in existing then Some(existing[row.key]) else v.encrypt(row.value, i)
  }

  function PrepareRow(p: Preparation, row: Input, i: nat, existing: map<string, Bytes>, v: Vault): Preparation {
    if p.Refused? || row.key == "" then p
    else if !ValidKey(row.key) then Refused(InvalidKey(row.key))
    else if row.key in p.seen then Refused(DuplicateKey(row.key))
    else
      match BlobFor(row, i, existing, v)
      case None => Refused(EncryptFailed)
      case Some(b) => Ready(p.out + [Prepared(row.key, Stored(b, row.isSecret))], p.seen + {row.key})
  }

  /** The first n rows, prepared in order; the first problem wins. */
  function Prepare(vars: seq<Input>, n: nat, existing: map<string, Bytes>, v: Vault): Preparation
    requires n <= |vars|
  {
    if n == 0 then Ready([], {}) else PrepareRow(Prepare(vars, n - 1, existing, v), vars[n - 1], n - 1, existing, v)
  }

  lemma {:induction false} RefusedStays(vars: seq<Input>, i: nat, n: nat, existing: map<string, Bytes>, v: Vault)
    requires i <= n <= |vars| && Prepare(vars, i, existing, v).Refused?
    ensures Prepare(vars, n, existing, v) == Prepare(vars, i, existing, v)
  {
    if i < n {
      RefusedStays(vars, i, n - 1, existing, v);
    }
  }

  method PrepareEnvVars(vars: seq<Input>, existing: map<string, Bytes>, v: Vault) returns (r: Preparation)
    ensures r == Prepare(vars, |vars|, existing, v)
  {
    var out: seq<Prepared>, seen: set<string> := [], {};
    for i := 0 to |vars|
      invariant Ready(out, seen) == Prepare(vars, i, existing, v)
    {
      var row := vars[i];
      if row.key == "" {
        continue;
      }
      if !ValidKey(row.key) {
        RefusedStays(vars, i + 1, |vars|, existing, v);
        return Refused(InvalidKey(row.key));
      }
      if row.key in seen {
        RefusedStays(vars, i + 1, |vars|, existing, v);
        return Refused(DuplicateKey(row.key));
      }
      seen := seen + {row.key};
      if row.untouched && row.key in existing {
        out := out + [Prepared(row.key, Stored(existing[row.key], row.isSecret))];
        continue;
      }
      var encrypted := v.encrypt(row.value, i);
      if encrypted.None? {
        RefusedStays(vars, i + 1, |vars|, existing, v);
        return Refused(EncryptFailed);
      }
      out := out + [Prepared(row.key, Stored(encrypted.value, row.isSecret))];
    }
    return Ready(out, seen);
  }

  /** A request is acceptable when its non-blank keys are well-formed and distinct and every value can be encrypted. */
  ghost predicate Acceptable(vars: seq<Input>, n: nat, existing: map<string, Bytes>, v: Vault)
    requires n <= |vars|
  {
    forall i | 0 <= i < n && vars[i].key != "" ::
      && ValidKey(vars[i].key)
      && BlobFor(vars[i], i, existing, v).Some?
      && forall j | 0 <= j < i :: vars[j].key != vars[i].key
  }

  /** The non-blank keys of the first n rows. */
  ghost function Submitted(vars: seq<Input>, n: nat): set<string>
    requires n <= |vars|
  {
    if n == 0 then {}
    else Submitted(vars, n - 1) + if vars[n - 1].key == "" then {} else {vars[n - 1].key}
  }

  lemma {:induction false} SubmittedMeans(vars: seq<Input>, n: nat, key: string)
    requires n <= |vars|
    ensures key in Submitted(vars, n) <==> key != "" && exists i | 0 <= i < n :: vars[i].key == key
  {
    if n > 0 {
      SubmittedMeans(vars, n - 1, key);
      if key == vars[n - 1].key && key != "" {
        assert vars[n - 1].key == key;
      }
    }
  }

  /** Preparation succeeds exactly on acceptable requests. */
  lemma {:induction false} PrepareIff(vars: seq<Input>, n: nat, existing: map<string, Bytes>, v: Vault)
    requires n <= |vars|
    ensures Prepare(vars, n, existing, v).Ready? <==> Acceptable(vars, n, existing, v)
    ensures Prepare(vars, n, existing, v).Ready? ==> Prepare(vars, n, existing, v).seen == Submitted(vars, n)
  {
    if n > 0 {
      PrepareIff(vars, n - 1, existing, v);
      SubmittedMeans(vars, n - 1, vars[n - 1].key);
      if Acceptable(vars, n - 1, existing, v) {
        AcceptableOneMore(vars, n, existing, v);
      }
    }
  }

  lemma AcceptableOneMore(vars: seq<Input>, n: nat, existing: map<string, Bytes>, v: Vault)
    requires 0 < n <= |vars| && Acceptable(vars, n - 1, existing, v)
    ensures var row := vars[n - 1];
      Acceptable(vars, n, existing, v) <==>
        row.key != "" ==>
            ValidKey(row.key) && BlobFor(row, n - 1, existing, v).Some? &&
            !exists j | 0 <= j < n - 1 :: vars[j].key == row.key
  {
  }

  /** A refused request is refused for the first row at fault, and for its key before its value. */
  lemma {:induction false} FirstProblem(vars: seq<Input>, n: nat, existing: map<string, Bytes>, v: Vault)
      returns (i: nat)
    requires n <= |vars| && Prepare(vars, n, existing, v).Refused?
    ensures i < n && Acceptable(vars, i, existing, v) && vars[i].key != ""
    ensures Prepare(vars, n, existing, v).problem ==
            if !ValidKey(vars[i].key) then InvalidKey(vars[i].key)
            else if exists j | 0 <= j < i :: vars[j].key == vars[i].key then DuplicateKey(vars[i].key)
            else EncryptFailed
    ensures ValidKey(vars[i].key) && (forall j | 0 <= j < i :: vars[j].key != vars[i].key) ==>
              v.encrypt(vars[i].value, i).None? && !(vars[i].untouched && vars[i].key in existing)
  {
    if Prepare(vars, n - 1, existing, v).Refused? {
      i := FirstProblem(vars, n - 1, existing, v);
    } else {
      i := n - 1;
      PrepareIff(vars, i, existing, v);
      SubmittedMeans(vars, i, vars[i].key);
    }
  }

  /** The rows a preparation would store, by key. */
  function Rows(out: seq<Prepared>, n: nat): map<string, Stored>
    requires n <= |out|
  {
    if n == 0 then map[] else Rows(out, n - 1)[out[n - 1].key := out[n - 1].stored]
  }

  lemma {:induction false} RowsAppend(out: seq<Prepared>, p: Prepared, n: nat)
    requires n <= |out|
    ensures Rows(out + [p], n) == Rows(out, n)
  {
    if n > 0 {
      RowsAppend(out, p, n - 1);
    }
  }

  /** What is stored for a row of an accepted request. */
  ghost predicate StoredFor(rows: map<string, Stored>, row: Input, i: nat, existing: map<string, Bytes>, v: Vault) {
    row.key in rows && BlobFor(row, i, existing, v) == Some(rows[row.key].blob) &&
        rows[row.key].isSecret == row.isSecret
  }

  /** The rows hold exactly the keys of the first n submitted rows, each with the blob of its row. */
  ghost predicate Holds(rows: map<string, Stored>, vars: seq<Input>, n: nat, existing: map<string, Bytes>, v: Vault)
    requires n <= |vars|
  {
    && rows.Keys == Submitted(vars, n)
    && forall i | 0 <= i < n && vars[i].key != "" :: StoredFor(rows, vars[i], i, existing, v)
  }

  lemma HoldsStep(rows: map<string, Stored>, vars: seq<Input>, n: nat, existing: map<string, Bytes>, v: Vault, b: Bytes)
    requires 0 < n <= |vars| && Holds(rows, vars, n - 1, existing, v)
    requires var row := vars[n - 1];
             row.key != "" && row.key !in Submitted(vars, n - 1) && BlobFor(row, n - 1, existing, v) == Some(b)
    ensures Holds(rows[vars[n - 1].key := Stored(b, vars[n - 1].isSecret)], vars, n, existing, v)
  {
    forall i | 0 <= i < n - 1 && vars[i].key != "" ensures vars[i].key != vars[n - 1].key {
      assert StoredFor(rows, vars[i], i, existing, v);
    }
  }

  /** An accepted request prepares exactly its non-blank keys, each with the blob of its row. */
  lemma {:induction false} PrepareMeans(vars: seq<Input>, n: nat, existing: map<string, Bytes>, v: Vault)
    requires n <= |vars| && Prepare(vars, n, existing, v).Ready?
    ensures var out := Prepare(vars, n, existing, v).out; Holds(Rows(out, |out|), vars, n, existing, v)
  {
    if n > 0 {
      var row, before := vars[n - 1], Prepare(vars, n - 1, existing, v);
      PrepareMeans(vars, n - 1, existing, v);
      PrepareIff(vars, n - 1, existing, v);
      if row.key != "" {
        var b := BlobFor(row, n - 1, existing, v).value;
        HoldsStep(Rows(before.out, |before.out|), vars, n, existing, v, b);
        RowsAppend(before.out, Prepared(row.key, Stored(b, row.isSecret)), |before.out|);
      }
    }
  }

  // ----- The audit details -----

  datatype Details = Details(created: seq<string>, updated: seq<string>, removed: seq<string>)

  /** The blobs of a stored set, which is all the handler remembers of it. */
  function Blobs(rows: map<string, Stored>): map<string, Bytes> { map k | k in rows :: rows[k].blob }

  /** The keys of the first n prepared rows. */
  ghost function KeySet(prepared: seq<Prepared>, n: nat): set<string>
    requires n <= |prepared|
  {
    if n == 0 then {} else KeySet(prepared, n - 1) + {prepared[n - 1].key}
  }

  ghost predicate DistinctKeys(prepared: seq<Prepared>, n: nat)
    requires n <= |prepared|
  {
    n > 0 ==> DistinctKeys(prepared, n - 1) && prepared[n - 1].key !in KeySet(prepared, n - 1)
  }

  /** The prepared keys that were stored before with another blob. */
  ghost function Rewritten(existing: map<string, Bytes>, prepared: seq<Prepared>, n: nat): set<string>
    requires n <= |prepared|
  {
    if n == 0 then {}
    else
      var p := prepared[n - 1];
      Rewritten(existing, prepared, n - 1) +
      if p.key in existing && existing[p.key] != p.stored.blob then {p.key} else {}
  }

  /** Sorted listings of the created, rewritten and removed keys. */
  ghost predicate Describes(d: Details, existing: map<string, Bytes>, prepared: seq<Prepared>) {
    && Ascending(d.created) && Elements(d.created) == KeySet(prepared, |prepared|) - existing.Keys
    && Ascending(d.updated) && Elements(d.updated) == Rewritten(existing, prepared, |prepared|)
    && Ascending(d.removed) && Elements(d.removed) == existing.Keys - KeySet(prepared, |prepared|)
  }

  lemma {:induction false} RewrittenAmong(existing: map<string, Bytes>, prepared: seq<Prepared>, n: nat)
    requires n <= |prepared|
    ensures Rewritten(existing, prepared, n) <= KeySet(prepared, n) * existing.Keys
  {
    if n > 0 {
      RewrittenAmong(existing, prepared, n - 1);
    }
  }

  /** One loop over the prepared rows, one over the stored keys in any order, and three sorts. */
  method EnvChangeDetails(existing: map<string, Bytes>, prepared: seq<Prepared>) returns (d: Details)
    requires DistinctKeys(prepared, |prepared|)
    ensures Describes(d, existing, prepared)
  {
    var created: seq<string>, updated: seq<string>, removed: seq<string> := [], [], [];
    var kept: set<string> := {};
    for i := 0 to |prepared|
      invariant kept == KeySet(prepared, i)
      invariant NoRepeats(created) && Elements(created) == KeySet(prepared, i) - existing.Keys
      invariant NoRepeats(updated) && Elements(updated) == Rewritten(existing, prepared, i)
    {
      var p := prepared[i];
      KeyIsNew(prepared, i, |prepared|);
      RewrittenAmong(existing, prepared, i);
      kept := kept + {p.key};
      if p.key !in existing {
        NoRepeatsAppend(created, p.key);
        ElementsAppend(created, p.key);
        created := created + [p.key];
      } else if existing[p.key] != p.stored.blob {
        NoRepeatsAppend(updated, p.key);
        ElementsAppend(updated, p.key);
        updated := updated + [p.key];
      }
    }
    var todo := existing.Keys;
    while todo != {}
      invariant todo <= existing.Keys
      invariant NoRepeats(removed) && Elements(removed) == existing.Keys - todo - kept
    {
      var k :| k in todo;
      todo := todo - {k};
      if k !in kept {
        NoRepeatsAppend(removed, k);
        ElementsAppend(removed, k);
        removed := removed + [k];
      }
    }
    SortAscending(created);
    SortAscending(updated);
    SortAscending(removed);
    d := Details(Sort(created), Sort(updated), Sort(removed));
  }

  lemma {:induction false} KeyIsNew(prepared: seq<Prepared>, i: nat, n: nat)
    requires i < n <= |prepared| && DistinctKeys(prepared, n)
    ensures prepared[i].key !in KeySet(prepared, i) && prepared[i].key in KeySet(prepared, n)
  {
    if i < n - 1 {
      KeyIsNew(prepared, i, n - 1);
    }
  }

  /** One replacement has one description, whatever order the stored keys were walked in. */
  lemma DescriptionUnique(d: Details, e: Details, existing: map<string, Bytes>, prepared: seq<Prepared>)
    requires Describes(d, existing, prepared) && Describes(e, existing, prepared)
    ensures d == e
  {
    AscendingUnique(d.created, e.created);
    AscendingUnique(d.updated, e.updated);
    AscendingUnique(d.removed, e.removed);
  }

  // ----- The replacement -----

  lemma {:induction false} PreparedKeys(vars: seq<Input>, n: nat, existing: map<string, Bytes>, v: Vault)
    requires n <= |vars| && Prepare(vars, n, existing, v).Ready?
    ensures var p := Prepare(vars, n, existing, v);
      DistinctKeys(p.out, |p.out|) && KeySet(p.out, |p.out|) == p.seen
  {
    if n > 0 {
      PreparedKeys(vars, n - 1, existing, v);
      var p, q := Prepare(vars, n - 1, existing, v), Prepare(vars, n, existing, v);
      if q != p {
        KeysAppend(p.out, q.out[|p.out|], |p.out|);
      }
    }
  }

  lemma {:induction false} KeyCount(out: seq<Prepared>, n: nat)
    requires n <= |out| && DistinctKeys(out, n)
    ensures |KeySet(out, n)| == n
  {
    if n > 0 {
      KeyCount(out, n - 1);
    }
  }

  lemma {:induction false} KeysAppend(out: seq<Prepared>, p: Prepared, n: nat)
    requires n <= |out|
    ensures KeySet(out + [p], n) == KeySet(out, n) && DistinctKeys(out + [p], n) == DistinctKeys(out, n)
  {
    if n > 0 {
      KeysAppend(out, p, n - 1);
    }
  }

  lemma {:induction false} RowsKeys(out: seq<Prepared>, n: nat)
    requires n <= |out|
    ensures Rows(out, n).Keys == KeySet(out, n)
  {
    if n > 0 {
      RowsKeys(out, n - 1);
    }
  }

  /** The keys to retain, as the delete statement reads them: order and repeats do not matter. */
  method KeysOf(prepared: seq<Prepared>) returns (keys: set<string>)
    ensures keys == KeySet(prepared, |prepared|)
  {
    keys := {};
    for i := 0 to |prepared|
      invariant keys == KeySet(prepared, i)
    {
      keys := keys + {prepared[i].key};
    }
  }

  /**
    The stored set after a request: exactly the non-blank submitted keys; an untouched row that was
    stored keeps its ciphertext bit for bit; every other row reads as the submitted value.
   */
  ghost predicate Replaced(was: map<string, Stored>, now: map<string, Stored>, vars: seq<Input>, v: Vault) {
    && now.Keys == Submitted(vars, |vars|)
    && forall i | 0 <= i < |vars| && vars[i].key != "" ::
         && vars[i].key in now
         && now[vars[i].key].isSecret == vars[i].isSecret
         && if vars[i].untouched && vars[i].key in was then now[vars[i].key].blob == was[vars[i].key].blob
            else v.decrypt(now[vars[i].key].blob) == Some(vars[i].value)
  }

  lemma HoldsReplaces(was: map<string, Stored>, now: map<string, Stored>, vars: seq<Input>, v: Vault)
    requires Sound(v) && Holds(now, vars, |vars|, Blobs(was), v)
    ensures Replaced(was, now, vars, v)
  {
    forall i | 0 <= i < |vars| && vars[i].key != ""
      ensures vars[i].key in now && now[vars[i].key].isSecret == vars[i].isSecret
      ensures if vars[i].untouched && vars[i].key in was then now[vars[i].key].blob == was[vars[i].key].blob
              else v.decrypt(now[vars[i].key].blob) == Some(vars[i].value)
    {
      assert StoredFor(now, vars[i], i, Blobs(was), v);
    }
  }

  datatype Reply = Updated(details: Details) | BadRequest(problem: Problem) | ServerError

  class EnvStore {
    var rows: map<string, Stored>

    constructor (rows: map<string, Stored>)
      ensures this.rows == rows
    {
      this.rows := rows;
    }

    /**
      The statements run on a copy; step 0 begins, then come the upserts, the delete and the commit,
      and any may fail.
     */
    method Transact(prepared: seq<Prepared>, fails: Option<nat>) returns (ok: bool)
      requires DistinctKeys(prepared, |prepared|)
      modifies this
      ensures ok <==> fails.None? || fails.value > |prepared| + 2
      ensures rows == if ok then Rows(prepared, |prepared|) else old(rows)
    {
      if fails == Some(0) {
        return false;
      }
      var tx := rows;
      for i := 0 to |prepared|
        invariant rows == old(rows)
        invariant tx == old(rows) + Rows(prepared, i)
        invariant fails.Some? ==> fails.value > i
      {
        if fails == Some(i + 1) {
          return false;
        }
        tx := tx[prepared[i].key := prepared[i].stored];
      }
      var keys := KeysOf(prepared);
      RowsKeys(prepared, |prepared|);
      if fails == Some(|prepared| + 1) {
        return false;
      }
      tx := map k | k in tx && k in keys :: tx[k];
      if fails == Some(|prepared| + 2) {
        return false;
      }
      assert tx == Rows(prepared, |prepared|);
      rows := tx;
      return true;
    }

    /** listed says whether the stored set could be read; fails is the first database step that fails. */
    method UpdateEnvVars(vars: seq<Input>, v: Vault, listed: bool, fails: Option<nat>) returns (r: Reply)
      requires Sound(v)
      modifies this
      ensures !r.Updated? ==> rows == old(rows)
      ensures r.BadRequest? <==> listed && !Acceptable(vars, |vars|, Blobs(old(rows)), v)
      ensures r.Updated? <==>
        listed && Acceptable(vars, |vars|, Blobs(old(rows)), v) &&
            (fails.None? || fails.value > |Submitted(vars, |vars|)| + 2)
      ensures r.Updated? ==> Replaced(old(rows), rows, vars, v) && Accounts(r.details, old(rows), rows)
    {
      if !listed {
        return ServerError;
      }
      var existing := Blobs(rows);
      var p := PrepareEnvVars(vars, existing, v);
      PrepareIff(vars, |vars|, existing, v);
      if p.Refused? {
        return BadRequest(p.problem);
      }
      PreparedKeys(vars, |vars|, existing, v);
      KeyCount(p.out, |p.out|);
      PrepareMeans(vars, |vars|, existing, v);
      var ok := Transact(p.out, fails);
      if !ok {
        return ServerError;
      }
      HoldsReplaces(old(rows), rows, vars, v);
      var details := EnvChangeDetails(existing, p.out);
      DetailsAccount(details, old(rows), p.out);
      return Updated(details);
    }
  }

  // ----- The audit entry as a conservation law -----

  /**
    The entry accounts for the replacement: its three lists are sorted and apart, the old keys less
    the removed plus the created are the new keys, and the updated are exactly the surviving keys
    whose ciphertext changed.
   */
  ghost predicate Accounts(d: Details, was: map<string, Stored>, now: map<string, Stored>) {
    && Ascending(d.created) && Ascending(d.updated) && Ascending(d.removed)
    && Elements(d.created) !! Elements(d.updated) && Elements(d.created) !! Elements(d.removed)
    && Elements(d.updated) !! Elements(d.removed)
    && was.Keys - Elements(d.removed) + Elements(d.created) == now.Keys
    && Elements(d.removed) <= was.Keys && Elements(d.created) !! was.Keys
    && Elements(d.updated) == set k | k in was && k in now && was[k].blob != now[k].blob
  }

  lemma {:induction false} RewrittenMeans(existing: map<string, Bytes>, out: seq<Prepared>, n: nat, key: string)
    requires n <= |out| && DistinctKeys(out, n)
    ensures key in Rewritten(existing, out, n) <==>
      key in existing && key in Rows(out, n) && existing[key] != Rows(out, n)[key].blob
  {
    if n > 0 {
      RewrittenMeans(existing, out, n - 1, key);
      RowsKeys(out, n - 1);
      RewrittenAmong(existing, out, n - 1);
    }
  }

  lemma DetailsAccount(d: Details, was: map<string, Stored>, out: seq<Prepared>)
    requires DistinctKeys(out, |out|) && Describes(d, Blobs(was), out)
    ensures Accounts(d, was, Rows(out, |out|))
  {
    var now := Rows(out, |out|);
    RowsKeys(out, |out|);
    RewrittenAmong(Blobs(was), out, |out|);
    forall key ensures key in Elements(d.updated) <==> key in was && key in now && was[key].blob != now[key].blob {
      RewrittenMeans(Blobs(was), out, |out|, key);
    }
  }

  /**
    With fresh random bytes an encryption never repeats a stored ciphertext; then updated lists
    exactly the surviving rows that were not marked untouched.
   */
  lemma UpdatedIsReencrypted(d: Details, was: map<string, Stored>, now: map<string, Stored>, vars: seq<Input>,
      v: Vault, i: nat)
    requires Accounts(d, was, now) && Holds(now, vars, |vars|, Blobs(was), v)
    requires i < |vars| && vars[i].key != ""
    requires vars[i].key in was ==> v.encrypt(vars[i].value, i) != Some(was[vars[i].key].blob)
    ensures vars[i].key in Elements(d.updated) <==> vars[i].key in was && !vars[i].untouched
  {
    assert StoredFor(now, vars[i], i, Blobs(was), v);
  }

  // ----- Listing and saving back -----

  /** What the listing sends of a row; a secret's value and an unreadable one are left empty. */
  datatype Response = Response(key: string, value: string, isSecret: bool)

  function ResponseFor(key: string, row: Stored, v: Vault): Response {
    Response(
        key,
        if row.isSecret then "" else match v.decrypt(row.blob) case None => "" case Some(value) => value,
        row.isSecret)
  }

  function ListingOf(rows: map<string, Stored>, order: seq<string>, v: Vault): (result: seq<Response>)
    requires forall i | 0 <= i < |order| :: order[i] in rows
    ensures |result| == |order| && forall i | 0 <= i < |order| :: result[i] == ResponseFor(order[i], rows[order[i]], v)
  {
    seq(|order|, i requires 0 <= i < |order| => ResponseFor(order[i], rows[order[i]], v))
  }

  /** Nothing that a listing sends depends on what a secret holds. */
  lemma SecretsAreNotSent(rows: map<string, Stored>, others: map<string, Stored>, order: seq<string>, v: Vault)
    requires rows.Keys == others.Keys && forall key <- rows :: rows[key].isSecret == others[key].isSecret
    requires forall key <- rows | !rows[key].isSecret :: rows[key].blob == others[key].blob
    requires forall i | 0 <= i < |order| :: order[i] in rows
    ensures ListingOf(rows, order, v) == ListingOf(others, order, v)
  {
  }

  /** In the order asked for: a secret empty, any other row as it reads, or empty when it cannot be read. */
  method ListEnvVars(rows: map<string, Stored>, order: seq<string>, v: Vault) returns (result: seq<Response>)
    requires forall i | 0 <= i < |order| :: order[i] in rows
    ensures result == ListingOf(rows, order, v)
    ensures |result| == |order|
    ensures forall i | 0 <= i < |order| ::
      && result[i].key == order[i] && result[i].isSecret == rows[order[i]].isSecret
      && (rows[order[i]].isSecret ==> result[i].value == "")
      && (!rows[order[i]].isSecret && v.decrypt(rows[order[i]].blob).None? ==> result[i].value == "")
      && (!rows[order[i]].isSecret && v.decrypt(rows[order[i]].blob).Some? ==>
            result[i].value == v.decrypt(rows[order[i]].blob).value)
  {
    result := [];
    for i := 0 to |order|
      invariant |result| == i && forall k | 0 <= k < i :: result[k] == ResponseFor(order[k], rows[order[k]], v)
    {
      var row := rows[order[i]];
      var value := "";
      if !row.isSecret {
        var decrypted := v.decrypt(row.blob);
        if decrypted.Some? {
          value := decrypted.value;
        }
      }
      result := result + [Response(order[i], value, row.isSecret)];
    }
  }

  /** The request lists every stored key once. */
  ghost predicate SavesAll(rows: map<string, Stored>, vars: seq<Input>) {
    && (forall i | 0 <= i < |vars| ::
        ValidKey(vars[i].key) && vars[i].key in rows && vars[i].isSecret == rows[vars[i].key].isSecret)
    && (forall i, j | 0 <= i < j < |vars| :: vars[i].key != vars[j].key)
    && Submitted(vars, |vars|) == rows.Keys
  }

  /** The web editor sends every row nobody touched as untouched: saving it changes nothing at all. */
  lemma UntouchedSaveChangesNothing(rows: map<string, Stored>, vars: seq<Input>, v: Vault)
    requires SavesAll(rows, vars) && forall i | 0 <= i < |vars| :: vars[i].untouched
    ensures Acceptable(vars, |vars|, Blobs(rows), v)
    ensures var p := Prepare(vars, |vars|, Blobs(rows), v); p.Ready? && Rows(p.out, |p.out|) == rows
  {
    PrepareIff(vars, |vars|, Blobs(rows), v);
    PrepareMeans(vars, |vars|, Blobs(rows), v);
    var out := Prepare(vars, |vars|, Blobs(rows), v).out;
    forall key <- rows ensures key in Rows(out, |out|) && Rows(out, |out|)[key] == rows[key] {
      SubmittedMeans(vars, |vars|, key);
      var i :| 0 <= i < |vars| && vars[i].key == key;
      assert StoredFor(Rows(out, |out|), vars[i], i, Blobs(rows), v);
    }
  }

  /**
    A client that sends a listing back, marking only the secrets untouched, keeps every plaintext
    exactly when every row that is not secret can be read; an unreadable one is overwritten with
    the empty text.
   */
  lemma ListingSavedBackIff(rows: map<string, Stored>, now: map<string, Stored>, vars: seq<Input>, v: Vault)
    requires Sound(v) && SavesAll(rows, vars) && Holds(now, vars, |vars|, Blobs(rows), v)
    requires forall i | 0 <= i < |vars| ::
      vars[i].untouched == vars[i].isSecret && vars[i].value == ResponseFor(vars[i].key, rows[vars[i].key], v).value
    ensures (forall key <- rows :: key in now && v.decrypt(now[key].blob) == v.decrypt(rows[key].blob))
       <==> (forall key <- rows | !rows[key].isSecret :: v.decrypt(rows[key].blob).Some?)
  {
    forall key <- rows
      ensures key in now
      ensures v.decrypt(now[key].blob) == v.decrypt(rows[key].blob) <==>
              rows[key].isSecret || v.decrypt(rows[key].blob).Some?
    {
      SubmittedMeans(vars, |vars|, key);
      var i :| 0 <= i < |vars| && vars[i].key == key;
      assert StoredFor(now, vars[i], i, Blobs(rows), v);
    }
  }
}
