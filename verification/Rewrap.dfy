/**
  Key rotation over stored secrets (apps/api/cmd/rewrap/main.go): every encrypted column and every
  base64 settings row is re-sealed under the current key, one row at a time, stopping anywhere.
 */
module Rewrap {
  import opened Base
  import opened Keyring

  /**
    What rotation needs of the keyring, over the form B in which a secret is stored: how it is read,
    whether it is under the current key, and how it is re-sealed with freshly drawn bytes.
   */
  datatype Ring<!B> = Ring(empty: B, read: B -> Option<Bytes>, current: B -> bool, reseal: (B, Draw) -> Option<B>)

  /** Resealing keeps the plaintext, yields the current version, and fails exactly on what cannot be read. */
  ghost predicate Sound<B(!new)>(r: Ring<B>) {
    forall b: B, d: Draw {:trigger r.reseal(b, d)} | IsDraw(d) ::
      && (r.reseal(b, d).Some? <==> r.read(b).Some?)
      && (r.reseal(b, d).Some? ==> r.current(r.reseal(b, d).value) && r.read(r.reseal(b, d).value) == r.read(b))
  }

  function ColumnRing(c: Cipher, k: Keys): Ring<Bytes>
    requires k.current in k.keks
  {
    Ring([], b => Decrypt(c, k, b), b => IsCurrent(k, b), (b, d) => Keyring.Rewrap(c, k, b, d))
  }

  /** Base64 (section 4 of RFC 4648) as a pair of functions. */
  datatype Codec = Codec(encode: Bytes -> string, decode: string -> Option<Bytes>)

  ghost predicate RoundTrips(x: Codec) { forall b: Bytes :: x.decode(x.encode(b)) == Some(b) }

  function SettingRing(c: Cipher, k: Keys, x: Codec): Ring<string>
    requires k.current in k.keks
  {
    Ring("",
         (s: string) => (match x.decode(s) case None => None case Some(b) => Decrypt(c, k, b)),
         (s: string) => (match x.decode(s) case None => false case Some(b) => IsCurrent(k, b)),
         (s: string, d: Draw) =>
           (match x.decode(s)
            case None => None
            case Some(b) => match Keyring.Rewrap(c, k, b, d) case None => None case Some(u) => Some(x.encode(u))))
  }

  /** The keyring gives rotation what it needs, for columns and for settings rows. */
  lemma RingsAreSound(c: Cipher, k: Keys, x: Codec)
    requires Lawful(c) && Valid(k) && RoundTrips(x)
    ensures Sound(ColumnRing(c, k)) && Sound(SettingRing(c, k, x))
  {
    var columns, settings := ColumnRing(c, k), SettingRing(c, k, x);
    forall b: Bytes, d: Draw | IsDraw(d)
      ensures (columns.reseal(b, d).Some? <==> columns.read(b).Some?)
           && (columns.reseal(b, d).Some? ==>
               columns.current(columns.reseal(b, d).value) &&
               columns.read(columns.reseal(b, d).value) == columns.read(b))
    {
      RewrapKeepsPlaintext(c, k, b, d);
    }
    forall s: string, d: Draw | IsDraw(d)
      ensures (settings.reseal(s, d).Some? <==> settings.read(s).Some?)
           && (settings.reseal(s, d).Some? ==>
               settings.current(settings.reseal(s, d).value) &&
               settings.read(settings.reseal(s, d).value) == settings.read(s))
    {
      if x.decode(s).Some? {
        RewrapKeepsPlaintext(c, k, x.decode(s).value, d);
      }
    }
  }

  /** A settings row that is base64 is what its bytes are; one that is not can be neither read nor skipped. */
  lemma SettingsAreBase64(c: Cipher, k: Keys, x: Codec, b: Bytes, s: string)
    requires k.current in k.keks && RoundTrips(x)
    ensures var r := SettingRing(c, k, x);
      && r.read(x.encode(b)) == Decrypt(c, k, b) && (r.current(x.encode(b)) <==> IsCurrent(k, b))
      && (x.decode(s).None? ==> r.read(s).None? && !r.current(s))
  {
    assert x.decode(x.encode(b)) == Some(b);
  }

  // ----- What a run may do to a store -----

  predicate Stale<B(==)>(r: Ring<B>, b: B) { b != r.empty && !r.current(b) }

  ghost function StaleKeys<K, B>(r: Ring<B>, store: map<K, B>): set<K> { set k | k in store && Stale(r, store[k]) }

  /** A stale value was replaced by a current one that reads the same. */
  ghost predicate Resealed<B>(r: Ring<B>, was: B, now: B) {
    Stale(r, was) && r.current(now) && r.read(was).Some? && r.read(now) == r.read(was)
  }

  /** Every value is untouched or resealed. */
  ghost predicate Advances<K, B>(r: Ring<B>, was: map<K, B>, now: map<K, B>) {
    now.Keys == was.Keys && forall k <- was :: now[k] == was[k] || Resealed(r, was[k], now[k])
  }

  lemma AdvancesTransitive<K, B>(r: Ring<B>, a: map<K, B>, b: map<K, B>, c: map<K, B>)
    requires Advances(r, a, b) && Advances(r, b, c)
    ensures Advances(r, a, c)
  {
    forall k <- a ensures c[k] == a[k] || Resealed(r, a[k], c[k]) {
      assert k in b;
    }
  }

  /** Any number of runs, each stopped anywhere. */
  ghost predicate Runs<K, B>(r: Ring<B>, stores: seq<map<K, B>>) {
    var n := |stores| - 1;
    n >= 0 && (n > 0 ==> Runs(r, stores[..n]) && Advances(r, stores[n - 1], stores[n]))
  }

  /**
    Whatever the runs did and wherever they failed, no row appears or disappears, every row still
    reads as it did, the stale rows only become fewer, and by exactly the rows that changed.
   */
  lemma {:induction false} NothingIsLost<K, B>(r: Ring<B>, stores: seq<map<K, B>>)
    requires Runs(r, stores)
    ensures var first, last := stores[0], stores[|stores| - 1];
            && Advances(r, first, last)
            && (forall k <- first :: k in last && r.read(last[k]) == r.read(first[k]))
            && StaleKeys(r, last) == StaleKeys(r, first) - (set k | k in first && k in last && last[k] != first[k])
            && |StaleKeys(r, last)| == |StaleKeys(r, first)| - |set k | k in first && k in last && last[k] != first[k]|
  {
    var n := |stores| - 1;
    if n > 0 {
      NothingIsLost(r, stores[..n]);
      AdvancesTransitive(r, stores[0], stores[n - 1], stores[n]);
    }
    StaleDrops(r, stores[0], stores[n]);
  }

  lemma StaleDrops<K, B>(r: Ring<B>, was: map<K, B>, now: map<K, B>)
    requires Advances(r, was, now)
    ensures StaleKeys(r, now) == StaleKeys(r, was) - (set k | k in was && k in now && now[k] != was[k])
    ensures |StaleKeys(r, now)| == |StaleKeys(r, was)| - |set k | k in was && k in now && now[k] != was[k]|
    ensures forall k <- was :: k in now && r.read(now[k]) == r.read(was[k])
  {
    var moved := set k | k in was && k in now && now[k] != was[k];
    assert moved <= StaleKeys(r, was);
    assert StaleKeys(r, now) == StaleKeys(r, was) - moved;
  }

  /** A keyring of the current key alone. */
  function OnlyCurrent(k: Keys): Keys
    requires k.current in k.keks
  {
    Keys(map[k.current := k.keks[k.current]], k.current)
  }

  /** What is current for one ring reads the same with another. */
  ghost predicate Suffices<B(!new)>(fewer: Ring<B>, r: Ring<B>) {
    forall b: B | r.current(b) :: fewer.read(b) == r.read(b)
  }

  lemma CurrentKeySuffices(c: Cipher, k: Keys, x: Codec)
    requires k.current in k.keks
    ensures Suffices(ColumnRing(c, OnlyCurrent(k)), ColumnRing(c, k))
    ensures Suffices(SettingRing(c, OnlyCurrent(k), x), SettingRing(c, k, x))
  {
    forall b: Bytes | IsCurrent(k, b) ensures Decrypt(c, OnlyCurrent(k), b) == Decrypt(c, k, b) {
      CurrentNeedsOnlyCurrent(c, k, OnlyCurrent(k), b);
    }
  }

  lemma ReadsAsBefore<K, B(!new)>(fewer: Ring<B>, r: Ring<B>, stores: seq<map<K, B>>)
    requires Suffices(fewer, r) && Runs(r, stores) && StaleKeys(r, stores[|stores| - 1]) == {}
    ensures var first, last := stores[0], stores[|stores| - 1];
            forall key <- first ::
              key in last && (first[key] != r.empty ==> fewer.read(last[key]) == r.read(first[key]))
  {
    var first, last := stores[0], stores[|stores| - 1];
    NothingIsLost(r, stores);
    forall key <- first | first[key] != r.empty ensures fewer.read(last[key]) == r.read(first[key]) {
      assert key !in StaleKeys(r, last);
    }
  }

  /**
    Once nothing is stale the old keys can go: a keyring holding the current key alone reads every
    non-empty column and every non-empty settings row as the full keyring read it before the first run.
   */
  lemma OldKeysCanRetire<K, L>(c: Cipher, k: Keys, x: Codec, columns: seq<map<K, Bytes>>, settings: seq<map<L, string>>)
    requires k.current in k.keks && Runs(ColumnRing(c, k), columns) && Runs(SettingRing(c, k, x), settings)
    requires StaleKeys(ColumnRing(c, k), columns[|columns| - 1]) == {}
    requires StaleKeys(SettingRing(c, k, x), settings[|settings| - 1]) == {}
    ensures var first, last := columns[0], columns[|columns| - 1];
            forall key <- first :: key in last &&
              (first[key] != [] ==> Decrypt(c, OnlyCurrent(k), last[key]) == Decrypt(c, k, first[key]))
    ensures var first, last := settings[0], settings[|settings| - 1];
            forall key <- first :: key in last &&
              (first[key] != "" ==>
                 SettingRing(c, OnlyCurrent(k), x).read(last[key]) == SettingRing(c, k, x).read(first[key]))
  {
    CurrentKeySuffices(c, k, x);
    hide Suffices, StaleKeys, Decrypt;
    ReadsAsBefore(ColumnRing(c, OnlyCurrent(k)), ColumnRing(c, k), columns);
    ReadsAsBefore(SettingRing(c, OnlyCurrent(k), x), SettingRing(c, k, x), settings);
  }

  // ----- The command -----

  /** One non-null value of one encrypted column; target numbers the (table, column) pair. */
  datatype Cell = Cell(target: nat, id: nat)

  datatype Counts = Counts(scanned: nat, rewrapped: nat, skipped: nat)

  function Plus(a: Counts, b: Counts): Counts {
    Counts(a.scanned + b.scanned, a.rewrapped + b.rewrapped, a.skipped + b.skipped)
  }

  /** The database and the random source as one run meets them. None stands for a failure. */
  datatype World = World(
    listing: nat -> Option<seq<Cell>>, drawn: Cell -> Option<Draw>, refuses: Cell -> bool,
    readable: nat -> bool, drawnFor: nat -> Option<Draw>, refusesSetting: nat -> bool)

  ghost predicate Honest(w: World) {
    && (forall cell :: w.drawn(cell).Some? ==> IsDraw(w.drawn(cell).value))
    && (forall key :: w.drawnFor(key).Some? ==> IsDraw(w.drawnFor(key).value))
  }

  /** The first n listed cells. */
  ghost function CellSet(listing: seq<Cell>, n: nat): set<Cell>
    requires n <= |listing|
  {
    if n == 0 then {} else CellSet(listing, n - 1) + {listing[n - 1]}
  }

  ghost predicate Distinct(listing: seq<Cell>, n: nat)
    requires n <= |listing|
  {
    n > 0 ==> Distinct(listing, n - 1) && listing[n - 1] !in CellSet(listing, n - 1)
  }

  ghost function Listed(listing: seq<Cell>): set<Cell> { CellSet(listing, |listing|) }

  lemma {:induction false} CellSetGrows(listing: seq<Cell>, i: nat, n: nat)
    requires i < n <= |listing| && Distinct(listing, n)
    ensures listing[i] !in CellSet(listing, i) && listing[i] in CellSet(listing, n) &&
            CellSet(listing, i) <= CellSet(listing, n)
  {
    if i + 1 < n {
      CellSetGrows(listing, i, n - 1);
    }
  }

  /**
    A row that goes through: it is skipped, or it can be read and the random source and the database
    do not fail it.
   */
  ghost predicate GoesThrough<B>(r: Ring<B>, b: B, drawn: Option<Draw>, refused: bool, dry: bool) {
    Stale(r, b) ==> r.read(b).Some? && drawn.Some? && (dry || !refused)
  }

  /** Each listed row is counted once: a stale one as rewrapped, any other as skipped. */
  function TallyOf(r: Ring<Bytes>, store: map<Cell, Bytes>, listing: seq<Cell>, n: nat): Counts
    requires n <= |listing|
  {
    if n == 0 then Counts(0, 0, 0)
    else
      var last := listing[n - 1];
      Plus(TallyOf(r, store, listing, n - 1),
           if last in store && Stale(r, store[last]) then Counts(1, 1, 0) else Counts(1, 0, 1))
  }

  /** The stale cells among the first n listed. */
  ghost function StaleAmong(r: Ring<Bytes>, store: map<Cell, Bytes>, listing: seq<Cell>, n: nat): set<Cell>
    requires n <= |listing|
  {
    if n == 0 then {}
    else
      var last := listing[n - 1];
      if last in store && Stale(r, store[last])
      then StaleAmong(r, store, listing, n - 1) + {last}
      else StaleAmong(r, store, listing, n - 1)
  }

  lemma {:induction false} StaleAmongMeans(r: Ring<Bytes>, store: map<Cell, Bytes>, listing: seq<Cell>, n: nat)
    requires n <= |listing|
    ensures StaleAmong(r, store, listing, n) == StaleKeys(r, store) * CellSet(listing, n)
  {
    if n > 0 {
      StaleAmongMeans(r, store, listing, n - 1);
    }
  }

  /** The tally of a listing is the size of its stale part and of the rest. */
  lemma {:induction false} TallyCounts(r: Ring<Bytes>, store: map<Cell, Bytes>, listing: seq<Cell>, n: nat)
    requires n <= |listing| && Distinct(listing, n)
    ensures var t := TallyOf(r, store, listing, n);
            && t.scanned == |CellSet(listing, n)| == t.rewrapped + t.skipped
            && t.rewrapped == |StaleAmong(r, store, listing, n)|
  {
    if n > 0 {
      TallyCounts(r, store, listing, n - 1);
      StaleAmongMeans(r, store, listing, n - 1);
    }
  }

  datatype Outcome = Skipped | Rewrapped | Broken

  /** Targets and settings rows are known by their position in the program's two lists. */
  class Rotation {
    var cells: map<Cell, Bytes>
    var settings: map<nat, string>
    const columns: Ring<Bytes>
    const texts: Ring<string>

    ghost predicate Ready(w: World)
    {
      columns.empty == [] && texts.empty == "" && Sound(columns) && Sound(texts) && Honest(w)
    }

    constructor (c: Cipher, k: Keys, x: Codec, cells: map<Cell, Bytes>, settings: map<nat, string>)
      requires Lawful(c) && Valid(k) && RoundTrips(x)
      ensures this.cells == cells && this.settings == settings
      ensures columns == ColumnRing(c, k) && texts == SettingRing(c, k, x)
      ensures forall w | Honest(w) :: Ready(w)
    {
      this.cells, this.settings := cells, settings;
      columns, texts := ColumnRing(c, k), SettingRing(c, k, x);
      RingsAreSound(c, k, x);
    }

    /** One row of a table; a dry run reseals the value but writes nothing. */
    method RewrapRow(cell: Cell, w: World, dry: bool) returns (o: Outcome)
      requires cell in cells && Ready(w)
      modifies this`cells
      ensures o.Broken? <==> !GoesThrough(columns, old(cells)[cell], w.drawn(cell), w.refuses(cell), dry)
      ensures o.Skipped? <==> !Stale(columns, old(cells)[cell])
      ensures if o.Rewrapped? && !dry
              then cells.Keys == old(cells).Keys && cells == old(cells)[cell := cells[cell]] &&
                  Resealed(columns, old(cells)[cell], cells[cell])
              else cells == old(cells)
    {
      var enc := cells[cell];
      if |enc| == 0 {
        return Skipped;
      }
      if columns.current(enc) {
        return Skipped;
      }
      var drawn := w.drawn(cell);
      if drawn.None? {
        return Broken;
      }
      var upgraded := columns.reseal(enc, drawn.value);
      if upgraded.None? {
        return Broken;
      }
      if dry {
        return Rewrapped;
      }
      if w.refuses(cell) {
        return Broken;
      }
      cells := cells[cell := upgraded.value];
      return Rewrapped;
    }

    ghost predicate TableGoesThrough(store: map<Cell, Bytes>, todo: set<Cell>, w: World, dry: bool)
      requires todo <= store.Keys
    {
      forall cell <- todo :: GoesThrough(columns, store[cell], w.drawn(cell), w.refuses(cell), dry)
    }

    /**
      One table: succeeds exactly when the listing does and every stale row goes through. Success
      counts every listed row once, as the store was before; failure keeps the rows already done.
     */
    method RewrapTable(listing: Option<seq<Cell>>, w: World, dry: bool) returns (r: Option<Counts>)
      requires Ready(w)
      requires listing.Some? ==> Distinct(listing.value, |listing.value|) && Listed(listing.value) <= cells.Keys
      modifies this`cells
      ensures listing.None? ==> r.None? && cells == old(cells)
      ensures r.Some? ==> listing.Some? && TableUpTo(old(cells), cells, listing.value, |listing.value|, w, dry, r.value)
      ensures r.None? && listing.Some? ==>
        Touches(old(cells), cells, Listed(listing.value), dry) &&
            !TableGoesThrough(old(cells), Listed(listing.value), w, dry)
    {
      if listing.None? {
        return None;
      }
      var batch := listing.value;
      var res := Counts(0, 0, 0);
      ghost var was := cells;
      for i := 0 to |batch|
        invariant Listed(batch) <= was.Keys && TableUpTo(was, cells, batch, i, w, dry, res)
      {
        var cell := batch[i];
        CellSetGrows(batch, i, |batch|);
        ghost var before, counted := cells, res;
        var o := RewrapRow(cell, w, dry);
        TableStep(was, before, cells, batch, i, w, dry, counted, o);
        res := res.(scanned := res.scanned + 1);
        if o.Broken? {
          return None;
        }
        res := if o.Skipped? then res.(skipped := res.skipped + 1) else res.(rewrapped := res.rewrapped + 1);
      }
      return Some(res);
    }

    /**
      One base64 settings row: a missing or empty one is not counted. The row goes through as a
      table's row does; one that is not base64 fails.
     */
    method RewrapSetting(key: nat, w: World, dry: bool) returns (r: Option<Counts>)
      requires Ready(w)
      modifies this`settings
      ensures Advances(texts, old(settings), settings) && (dry ==> settings == old(settings))
      ensures forall other <- old(settings) | other != key :: settings[other] == old(settings)[other]
      ensures r.Some? <==> SettingOk(old(settings), key, w, dry)
      ensures r.Some? ==> r.value == SettingTally(old(settings), key)
      ensures r.Some? && !dry && key in settings ==> !Stale(texts, settings[key])
    {
      if !w.readable(key) {
        return None;
      }
      if key !in settings || settings[key] == "" {
        return Some(Counts(0, 0, 0));
      }
      var encoded := settings[key];
      if texts.current(encoded) {
        return Some(Counts(1, 0, 1));
      }
      var drawn := w.drawnFor(key);
      if drawn.None? {
        return None;
      }
      var upgraded := texts.reseal(encoded, drawn.value);
      if upgraded.None? {
        return None;
      }
      if dry {
        return Some(Counts(1, 1, 0));
      }
      if w.refusesSetting(key) {
        return None;
      }
      settings := settings[key := upgraded.value];
      return Some(Counts(1, 1, 0));
    }

    ghost predicate SettingOk(store: map<nat, string>, key: nat, w: World, dry: bool) {
      w.readable(key) && (key in store ==> GoesThrough(texts, store[key], w.drawnFor(key), w.refusesSetting(key), dry))
    }

    ghost function SettingTally(store: map<nat, string>, key: nat): Counts {
      if key !in store || store[key] == "" then Counts(0, 0, 0)
      else if Stale(texts, store[key]) then Counts(1, 1, 0) else Counts(1, 0, 1)
    }

    /** Rows advance, none outside within changes, and a dry run changes nothing. */
    ghost predicate Touches(was: map<Cell, Bytes>, now: map<Cell, Bytes>, within: set<Cell>, dry: bool) {
      && Advances(columns, was, now)
      && (dry ==> now == was)
      && (forall cell <- was | cell !in within :: now[cell] == was[cell])
    }

    ghost predicate NoneStale(store: map<Cell, Bytes>, among: set<Cell>) {
      forall cell <- among | cell in store :: !Stale(columns, store[cell])
    }

    /** The first n listed rows went through. */
    ghost predicate TableUpTo(was: map<Cell, Bytes>, now: map<Cell, Bytes>, batch: seq<Cell>, n: nat, w: World,
        dry: bool, res: Counts)
      requires n <= |batch|
    {
      && Touches(was, now, CellSet(batch, n), dry) && (!dry ==> NoneStale(now, CellSet(batch, n)))
      && CellSet(batch, n) <= was.Keys && TableGoesThrough(was, CellSet(batch, n), w, dry)
      && res == TallyOf(columns, was, batch, n)
    }

    lemma TableStep(was: map<Cell, Bytes>, before: map<Cell, Bytes>, now: map<Cell, Bytes>, batch: seq<Cell>, n: nat,
        w: World, dry: bool,
                    res: Counts, o: Outcome)
      requires n < |batch| && TableUpTo(was, before, batch, n, w, dry, res) && Listed(batch) <= was.Keys &&
               Distinct(batch, |batch|)
      requires batch[n] in before
      requires o.Broken? <==> !GoesThrough(columns, before[batch[n]], w.drawn(batch[n]), w.refuses(batch[n]), dry)
      requires o.Skipped? <==> !Stale(columns, before[batch[n]])
      requires if o.Rewrapped? && !dry
               then now.Keys == before.Keys && now == before[batch[n] := now[batch[n]]] &&
                   Resealed(columns, before[batch[n]], now[batch[n]])
               else now == before
      ensures o.Broken? ==> Touches(was, now, Listed(batch), dry) && !TableGoesThrough(was, Listed(batch), w, dry)
      ensures !o.Broken? ==>
              TableUpTo(was, now, batch, n + 1, w, dry,
                        Plus(res, if o.Rewrapped? then Counts(1, 1, 0) else Counts(1, 0, 1)))
    {
      CellSetGrows(batch, n, |batch|);
      assert before[batch[n]] == was[batch[n]];
    }

    // ----- A whole run -----

    /** A listing gives every non-null value of its column once. */
    ghost predicate Enumerates(listing: seq<Cell>, store: map<Cell, Bytes>, t: nat) {
      Distinct(listing, |listing|) && Listed(listing) == set cell | cell in store && cell.target == t
    }

    ghost predicate TargetOk(store: map<Cell, Bytes>, t: nat, w: World, dry: bool) {
      && w.listing(t).Some?
      && Listed(w.listing(t).value) <= store.Keys
      && TableGoesThrough(store, Listed(w.listing(t).value), w, dry)
    }

    ghost function TargetTally(store: map<Cell, Bytes>, t: nat, w: World): Counts {
      if w.listing(t).Some? then TallyOf(columns, store, w.listing(t).value, |w.listing(t).value|) else Counts(0, 0, 0)
    }

    ghost function TargetsTally(store: map<Cell, Bytes>, ts: seq<nat>, n: nat, w: World): Counts
      requires n <= |ts|
    {
      if n == 0 then Counts(0, 0, 0) else Plus(TargetsTally(store, ts, n - 1, w), TargetTally(store, ts[n - 1], w))
    }

    ghost function SettingsTally(store: map<nat, string>, ks: seq<nat>, n: nat): Counts
      requires n <= |ks|
    {
      if n == 0 then Counts(0, 0, 0) else Plus(SettingsTally(store, ks, n - 1), SettingTally(store, ks[n - 1]))
    }

    /** Rows the listing does not name do not matter to its tally and to whether it goes through. */
    lemma {:induction false} TallyFrame(a: map<Cell, Bytes>, b: map<Cell, Bytes>, listing: seq<Cell>, n: nat,
        within: set<Cell>)
      requires n <= |listing| && CellSet(listing, n) <= within
      requires forall cell <- within :: cell in a && cell in b && a[cell] == b[cell]
      ensures TallyOf(columns, a, listing, n) == TallyOf(columns, b, listing, n)
    {
      if n > 0 {
        TallyFrame(a, b, listing, n - 1, within);
        assert listing[n - 1] in within;
      }
    }

    /** How many of the first n settings, and of the first n targets, do not go through. */
    ghost function SettingsFailing(store: map<nat, string>, ks: seq<nat>, n: nat, w: World, dry: bool): nat
      requires n <= |ks|
    {
      if n == 0 then 0
      else SettingsFailing(store, ks, n - 1, w, dry) + if SettingOk(store, ks[n - 1], w, dry) then 0 else 1
    }

    ghost function TargetsFailing(store: map<Cell, Bytes>, ts: seq<nat>, n: nat, w: World, dry: bool): nat
      requires n <= |ts|
    {
      if n == 0 then 0
      else TargetsFailing(store, ts, n - 1, w, dry) + if TargetOk(store, ts[n - 1], w, dry) then 0 else 1
    }

    // ----- The settings half of a run -----

    /** The first n settings have been tried. */
    ghost predicate SettingsUpTo(was: map<nat, string>, now: map<nat, string>, ks: seq<nat>, n: nat, w: World,
        dry: bool, failed: nat, total: Counts)
      requires n <= |ks|
    {
      && Advances(texts, was, now) && (dry ==> now == was)
      && (forall k | n <= k < |ks| && ks[k] in was :: now[ks[k]] == was[ks[k]])
      && failed == SettingsFailing(was, ks, n, w, dry)
      && (failed == 0 <==> forall k | 0 <= k < n :: SettingOk(was, ks[k], w, dry))
      && (failed == 0 ==> total == SettingsTally(was, ks, n))
      && (failed == 0 && !dry ==> forall k | 0 <= k < n && ks[k] in now :: !Stale(texts, now[ks[k]]))
      && total.scanned == total.rewrapped + total.skipped
    }

    lemma SettingsStep(was: map<nat, string>, before: map<nat, string>, now: map<nat, string>, ks: seq<nat>, n: nat,
        w: World, dry: bool,
                       failed: nat, total: Counts, r: Option<Counts>)
      requires n < |ks| && SettingsUpTo(was, before, ks, n, w, dry, failed, total)
      requires forall i, j | 0 <= i < j < |ks| :: ks[i] != ks[j]
      requires Advances(texts, before, now) && (dry ==> now == before)
      requires forall other <- before | other != ks[n] :: now[other] == before[other]
      requires r.Some? <==> SettingOk(before, ks[n], w, dry)
      requires r.Some? ==> r.value == SettingTally(before, ks[n])
      requires r.Some? && !dry && ks[n] in now ==> !Stale(texts, now[ks[n]])
      ensures r.None? ==> SettingsUpTo(was, now, ks, n + 1, w, dry, failed + 1, total)
      ensures r.Some? ==> SettingsUpTo(was, now, ks, n + 1, w, dry, failed, Plus(total, r.value))
    {
      AdvancesTransitive(texts, was, before, now);
      assert ks[n] in was ==> before[ks[n]] == was[ks[n]];
    }

    method RewrapSettings(ks: seq<nat>, w: World, dry: bool) returns (total: Counts, failed: nat)
      requires Ready(w) && forall i, j | 0 <= i < j < |ks| :: ks[i] != ks[j]
      modifies this`settings
      ensures SettingsUpTo(old(settings), settings, ks, |ks|, w, dry, failed, total)
    {
      total, failed := Counts(0, 0, 0), 0;
      ghost var was := settings;
      for i := 0 to |ks|
        invariant SettingsUpTo(was, settings, ks, i, w, dry, failed, total)
      {
        ghost var before := settings;
        var r := RewrapSetting(ks[i], w, dry);
        SettingsStep(was, before, settings, ks, i, w, dry, failed, total, r);
        if r.None? {
          failed := failed + 1;
        } else {
          total := Plus(total, r.value);
        }
      }
    }

    // ----- The tables half of a run -----

    /** The first n targets have been tried. */
    ghost predicate TargetsUpTo(was: map<Cell, Bytes>, now: map<Cell, Bytes>, ts: seq<nat>, n: nat, w: World,
        dry: bool, failed: nat, total: Counts)
      requires n <= |ts|
    {
      && Advances(columns, was, now) && (dry ==> now == was)
      && (forall cell, k | n <= k < |ts| && cell in was && cell.target == ts[k] :: now[cell] == was[cell])
      && failed == TargetsFailing(was, ts, n, w, dry)
      && (failed == 0 <==> forall k | 0 <= k < n :: TargetOk(was, ts[k], w, dry))
      && (failed == 0 ==> total == TargetsTally(was, ts, n, w))
      && (failed == 0 && !dry ==>
          forall cell, k | 0 <= k < n && cell in now && cell.target == ts[k] :: !Stale(columns, now[cell]))
      && total.scanned == total.rewrapped + total.skipped
    }

    /** What a target's rows were elsewhere does not matter to it. */
    lemma TargetFrame(a: map<Cell, Bytes>, b: map<Cell, Bytes>, t: nat, w: World, dry: bool)
      requires a.Keys == b.Keys && (w.listing(t).Some? ==> Enumerates(w.listing(t).value, a, t))
      requires forall cell <- a | cell.target == t :: a[cell] == b[cell]
      ensures TargetOk(a, t, w, dry) == TargetOk(b, t, w, dry)
      ensures TargetTally(a, t, w) == TargetTally(b, t, w)
    {
      if w.listing(t).Some? {
        var l := w.listing(t).value;
        TallyFrame(a, b, l, |l|, Listed(l));
      }
    }

    method RewrapTarget(t: nat, w: World, dry: bool) returns (r: Option<Counts>)
      requires Ready(w) && (w.listing(t).Some? ==> Enumerates(w.listing(t).value, cells, t))
      modifies this`cells
      ensures Advances(columns, old(cells), cells) && (dry ==> cells == old(cells))
      ensures forall cell <- old(cells) | cell.target != t :: cells[cell] == old(cells)[cell]
      ensures r.Some? <==> TargetOk(old(cells), t, w, dry)
      ensures r.Some? ==>
              r.value == TargetTally(old(cells), t, w) && r.value.scanned == r.value.rewrapped + r.value.skipped
      ensures r.Some? && !dry ==> forall cell <- cells | cell.target == t :: !Stale(columns, cells[cell])
    {
      r := RewrapTable(w.listing(t), w, dry);
      if r.Some? {
        var l := w.listing(t).value;
        TallyCounts(columns, old(cells), l, |l|);
        assert forall cell <- cells | cell.target == t :: cell in Listed(l);
      }
    }

    lemma TargetsStep(was: map<Cell, Bytes>, before: map<Cell, Bytes>, now: map<Cell, Bytes>, ts: seq<nat>, n: nat,
        w: World, dry: bool,
                      failed: nat, total: Counts, r: Option<Counts>)
      requires n < |ts| && TargetsUpTo(was, before, ts, n, w, dry, failed, total)
      requires forall i, j | 0 <= i < j < |ts| :: ts[i] != ts[j]
      requires Advances(columns, before, now) && (dry ==> now == before)
      requires forall cell <- before | cell.target != ts[n] :: now[cell] == before[cell]
      requires r.Some? <==> TargetOk(was, ts[n], w, dry)
      requires r.Some? ==>
               r.value == TargetTally(was, ts[n], w) && r.value.scanned == r.value.rewrapped + r.value.skipped
      requires r.Some? && !dry ==> forall cell <- now | cell.target == ts[n] :: !Stale(columns, now[cell])
      ensures r.None? ==> TargetsUpTo(was, now, ts, n + 1, w, dry, failed + 1, total)
      ensures r.Some? ==> TargetsUpTo(was, now, ts, n + 1, w, dry, failed, Plus(total, r.value))
    {
      AdvancesTransitive(columns, was, before, now);
    }

    method RewrapTables(ts: seq<nat>, w: World, dry: bool) returns (total: Counts, failed: nat)
      requires Ready(w) && forall i, j | 0 <= i < j < |ts| :: ts[i] != ts[j]
      requires forall i | 0 <= i < |ts| && w.listing(ts[i]).Some? :: Enumerates(w.listing(ts[i]).value, cells, ts[i])
      modifies this`cells
      ensures TargetsUpTo(old(cells), cells, ts, |ts|, w, dry, failed, total)
    {
      total, failed := Counts(0, 0, 0), 0;
      ghost var was := cells;
      for i := 0 to |ts|
        invariant TargetsUpTo(was, cells, ts, i, w, dry, failed, total)
      {
        ghost var before := cells;
        var r := RewrapTarget(ts[i], w, dry);
        TargetFrame(was, before, ts[i], w, dry);
        TargetsStep(was, before, cells, ts, i, w, dry, failed, total, r);
        if r.None? {
          failed := failed + 1;
        } else {
          total := Plus(total, r.value);
        }
      }
    }

    // ----- The whole command -----

    /** What a run counts when nothing fails. Whether the run is dry does not enter into it. */
    ghost function RunTally(cs: map<Cell, Bytes>, ss: map<nat, string>, ks: seq<nat>, ts: seq<nat>, w: World): Counts {
      Plus(SettingsTally(ss, ks, |ks|), TargetsTally(cs, ts, |ts|, w))
    }

    /** Every setting and every target goes through. */
    ghost predicate RunOk(cs: map<Cell, Bytes>, ss: map<nat, string>, ks: seq<nat>, ts: seq<nat>, w: World, dry: bool) {
      && (forall i | 0 <= i < |ks| :: SettingOk(ss, ks[i], w, dry))
      && (forall i | 0 <= i < |ts| :: TargetOk(cs, ts[i], w, dry))
    }

    ghost predicate Covered(cs: map<Cell, Bytes>, ts: seq<nat>) {
      forall cell <- cs :: exists i | 0 <= i < |ts| :: ts[i] == cell.target
    }

    ghost predicate CoveredSettings(ss: map<nat, string>, ks: seq<nat>) {
      forall key <- ss :: exists i | 0 <= i < |ks| :: ks[i] == key
    }

    /**
      The command: settings first, then tables, going on past each failure. It exits 0 exactly when
      nothing failed; then its totals are the run's tally and, unless it was dry, no secret of a
      listed setting or column is left under an old key.
     */
    method Run(ks: seq<nat>, ts: seq<nat>, w: World, dry: bool) returns (total: Counts, exitCode: nat)
      requires Ready(w)
      requires forall i, j | 0 <= i < j < |ks| :: ks[i] != ks[j]
      requires forall i, j | 0 <= i < j < |ts| :: ts[i] != ts[j]
      requires forall i | 0 <= i < |ts| && w.listing(ts[i]).Some? :: Enumerates(w.listing(ts[i]).value, cells, ts[i])
      modifies this
      ensures Advances(columns, old(cells), cells) && Advances(texts, old(settings), settings)
      ensures dry ==> cells == old(cells) && settings == old(settings)
      ensures exitCode == if RunOk(old(cells), old(settings), ks, ts, w, dry) then 0 else 1
      ensures exitCode == 0 ==> total == RunTally(old(cells), old(settings), ks, ts, w)
      ensures total.scanned == total.rewrapped + total.skipped
      ensures exitCode == 0 && !dry && Covered(cells, ts) ==> StaleKeys(columns, cells) == {}
      ensures exitCode == 0 && !dry && CoveredSettings(settings, ks) ==> StaleKeys(texts, settings) == {}
    {
      var totalOfSettings, failed := RewrapSettings(ks, w, dry);
      var totalOfTables, failedTables := RewrapTables(ts, w, dry);
      total := Plus(totalOfSettings, totalOfTables);
      exitCode := if failed + failedTables > 0 then 1 else 0;
      if exitCode == 0 && !dry {
        forall key <- settings | CoveredSettings(settings, ks) ensures !Stale(texts, settings[key]) {
        }
        forall cell <- cells | Covered(cells, ts) ensures !Stale(columns, cells[cell]) {
          assert cell in cells;
        }
      }
    }

    /** A settings row that holds something that is not base64 fails every run, dry or not. */
    lemma BadBase64Fails(c: Cipher, k: Keys, x: Codec, ss: map<nat, string>, ks: seq<nat>, i: nat, cs: map<Cell, Bytes>,
        ts: seq<nat>, w: World, dry: bool)
      requires k.current in k.keks && texts == SettingRing(c, k, x)
      requires i < |ks| && ks[i] in ss && ss[ks[i]] != "" && x.decode(ss[ks[i]]).None?
      ensures !RunOk(cs, ss, ks, ts, w, dry)
    {
      assert !SettingOk(ss, ks[i], w, dry);
    }

    ghost function StaleOfTarget(cs: map<Cell, Bytes>, t: nat): set<Cell> {
      set cell | cell in cs && cell.target == t && Stale(columns, cs[cell])
    }

    /** The stale rows of the first n targets. */
    ghost function StaleOfTargets(cs: map<Cell, Bytes>, ts: seq<nat>, n: nat): set<Cell>
      requires n <= |ts|
    {
      if n == 0 then {} else StaleOfTargets(cs, ts, n - 1) + StaleOfTarget(cs, ts[n - 1])
    }

    lemma TargetCount(cs: map<Cell, Bytes>, t: nat, w: World)
      requires w.listing(t).Some? && Enumerates(w.listing(t).value, cs, t)
      ensures TargetTally(cs, t, w).rewrapped == |StaleOfTarget(cs, t)|
    {
      var l := w.listing(t).value;
      TallyCounts(columns, cs, l, |l|);
      StaleAmongMeans(columns, cs, l, |l|);
      assert StaleAmong(columns, cs, l, |l|) == StaleOfTarget(cs, t);
    }

    lemma {:induction false} StaleOfTargetsMeans(cs: map<Cell, Bytes>, ts: seq<nat>, n: nat)
      requires n <= |ts|
      ensures forall cell <- StaleOfTargets(cs, ts, n) ::
        cell in cs && Stale(columns, cs[cell]) && exists i | 0 <= i < n :: ts[i] == cell.target
      ensures forall i, cell | 0 <= i < n && cell in StaleOfTarget(cs, ts[i]) :: cell in StaleOfTargets(cs, ts, n)
    {
      if n > 0 {
        StaleOfTargetsMeans(cs, ts, n - 1);
        assert ts[n - 1] == ts[n - 1];
      }
    }

    lemma {:induction false} TargetsApart(cs: map<Cell, Bytes>, ts: seq<nat>, n: nat, t: nat)
      requires n <= |ts| && forall i | 0 <= i < n :: ts[i] != t
      ensures StaleOfTargets(cs, ts, n) !! StaleOfTarget(cs, t)
    {
      if n > 0 {
        TargetsApart(cs, ts, n - 1, t);
        assert ts[n - 1] != t;
      }
    }

    lemma SizeOfApart<T>(a: set<T>, b: set<T>)
      requires a !! b
      ensures |a + b| == |a| + |b|
    {
    }

    /** The tables' tally counts the stale rows of the targets, each once. */
    lemma {:induction false} TargetsCount(cs: map<Cell, Bytes>, ts: seq<nat>, n: nat, w: World)
      requires n <= |ts| && forall i, j | 0 <= i < j < |ts| :: ts[i] != ts[j]
      requires forall i | 0 <= i < n :: w.listing(ts[i]).Some? && Enumerates(w.listing(ts[i]).value, cs, ts[i])
      ensures TargetsTally(cs, ts, n, w).rewrapped == |StaleOfTargets(cs, ts, n)|
    {
      if n > 0 {
        TargetsCount(cs, ts, n - 1, w);
        TargetCount(cs, ts[n - 1], w);
        TargetsApart(cs, ts, n - 1, ts[n - 1]);
        SizeOfApart(StaleOfTargets(cs, ts, n - 1), StaleOfTarget(cs, ts[n - 1]));
      }
    }

    /** The first n keys. */
    ghost function KeysUpTo(ks: seq<nat>, n: nat): set<nat>
      requires n <= |ks|
    {
      if n == 0 then {} else KeysUpTo(ks, n - 1) + {ks[n - 1]}
    }

    ghost predicate Apart(ks: seq<nat>) { forall i, j | 0 <= i < j < |ks| :: ks[i] != ks[j] }

    lemma KeyIsNew(ks: seq<nat>, n: nat)
      requires n < |ks| && Apart(ks)
      ensures ks[n] !in KeysUpTo(ks, n)
    {
      KeysAre(ks, n);
    }

    lemma {:induction false} KeysAre(ks: seq<nat>, n: nat)
      requires n <= |ks|
      ensures forall k :: k in KeysUpTo(ks, n) <==> exists i | 0 <= i < n :: ks[i] == k
    {
      if n > 0 {
        KeysAre(ks, n - 1);
        assert ks[n - 1] == ks[n - 1];
      }
    }

    predicate HoldsSome(ss: map<nat, string>, key: nat) { key in ss && ss[key] != "" }

    predicate HoldsStale(ss: map<nat, string>, key: nat) { HoldsSome(ss, key) && !texts.current(ss[key]) }

    /** Of the first n keys those whose row holds something, and those whose row holds something not current. */
    ghost function Held(ss: map<nat, string>, ks: seq<nat>, n: nat): set<nat>
      requires n <= |ks|
    {
      set k | k in KeysUpTo(ks, n) && HoldsSome(ss, k)
    }

    ghost function HeldStale(ss: map<nat, string>, ks: seq<nat>, n: nat): set<nat>
      requires n <= |ks|
    {
      set k | k in KeysUpTo(ks, n) && HoldsStale(ss, k)
    }

    lemma OneMoreSize<T>(a: set<T>, x: T, more: bool)
      requires x !in a
      ensures |a + (if more then {x} else {})| == |a| + if more then 1 else 0
    {
    }

    lemma OneMoreHeld(ss: map<nat, string>, ks: seq<nat>, n: nat)
      requires n < |ks| && ks[n] !in KeysUpTo(ks, n)
      ensures Held(ss, ks, n + 1) == Held(ss, ks, n) + (if HoldsSome(ss, ks[n]) then {ks[n]} else {})
      ensures HeldStale(ss, ks, n + 1) == HeldStale(ss, ks, n) + (if HoldsStale(ss, ks[n]) then {ks[n]} else {})
      ensures ks[n] !in Held(ss, ks, n) && ks[n] !in HeldStale(ss, ks, n)
    {
    }

    lemma OneMoreTally(ss: map<nat, string>, ks: seq<nat>, n: nat)
      requires n < |ks| && texts.empty == ""
      ensures var was, now := SettingsTally(ss, ks, n), SettingsTally(ss, ks, n + 1);
        && now.scanned == was.scanned + (if HoldsSome(ss, ks[n]) then 1 else 0)
        && now.rewrapped == was.rewrapped + (if HoldsStale(ss, ks[n]) then 1 else 0)
        && (was.scanned == was.rewrapped + was.skipped ==> now.scanned == now.rewrapped + now.skipped)
    {
    }

    /** The settings' tally counts the rows that hold something, and of those the stale ones, each once. */
    lemma {:induction false} SettingsCount(ss: map<nat, string>, ks: seq<nat>, n: nat)
      requires n <= |ks| && texts.empty == "" && Apart(ks)
      ensures Counted(ss, ks, n)
    {
      hide Counted, Apart;
      if n > 0 {
        SettingsCount(ss, ks, n - 1);
        SettingsCountStep(ss, ks, n - 1);
      } else {
        NothingCounted(ss, ks);
      }
    }

    lemma NothingCounted(ss: map<nat, string>, ks: seq<nat>)
      ensures Counted(ss, ks, 0)
    {
      assert Held(ss, ks, 0) == {} && HeldStale(ss, ks, 0) == {};
    }

    lemma SettingsCountStep(ss: map<nat, string>, ks: seq<nat>, n: nat)
      requires n < |ks| && texts.empty == "" && Apart(ks) && Counted(ss, ks, n)
      ensures Counted(ss, ks, n + 1)
    {
      hide Held, HeldStale, KeysUpTo, HoldsSome, HoldsStale, SettingsTally, Apart;
      KeyIsNew(ks, n);
      OneMoreHeld(ss, ks, n);
      OneMoreTally(ss, ks, n);
      OneMoreSize(Held(ss, ks, n), ks[n], HoldsSome(ss, ks[n]));
      OneMoreSize(HeldStale(ss, ks, n), ks[n], HoldsStale(ss, ks[n]));
    }

    ghost predicate Counted(ss: map<nat, string>, ks: seq<nat>, n: nat)
      requires n <= |ks|
    {
      var t := SettingsTally(ss, ks, n);
      t.scanned == |Held(ss, ks, n)| && t.rewrapped == |HeldStale(ss, ks, n)| && t.scanned == t.rewrapped + t.skipped
    }

    lemma {:induction false} NoSettingStale(ss: map<nat, string>, ks: seq<nat>, n: nat)
      requires n <= |ks| && StaleKeys(texts, ss) == {}
      ensures SettingsTally(ss, ks, n).rewrapped == 0
    {
      if n > 0 {
        NoSettingStale(ss, ks, n - 1);
        assert ks[n - 1] !in StaleKeys(texts, ss);
      }
    }

    /** After a run that left nothing stale, the next run over the same listings rewraps nothing. */
    lemma NextRunRewrapsNothing(cs: map<Cell, Bytes>, ss: map<nat, string>, ks: seq<nat>, ts: seq<nat>, w: World)
      requires forall i, j | 0 <= i < j < |ts| :: ts[i] != ts[j]
      requires forall i | 0 <= i < |ts| :: w.listing(ts[i]).Some? && Enumerates(w.listing(ts[i]).value, cs, ts[i])
      requires StaleKeys(columns, cs) == {} && StaleKeys(texts, ss) == {}
      ensures RunTally(cs, ss, ks, ts, w).rewrapped == 0
    {
      TargetsCount(cs, ts, |ts|, w);
      NoSettingStale(ss, ks, |ks|);
      StaleOfTargetsMeans(cs, ts, |ts|);
      assert StaleOfTargets(cs, ts, |ts|) <= StaleKeys(columns, cs);
    }

    /**
      A dry run that goes through foretells a real one: the real run fails exactly where the database
      refuses a write.
     */
    lemma DryRunForetells(cs: map<Cell, Bytes>, ss: map<nat, string>, ks: seq<nat>, ts: seq<nat>, w: World)
      requires RunOk(cs, ss, ks, ts, w, true)
      ensures RunOk(cs, ss, ks, ts, w, false) <==>
        && (forall i | 0 <= i < |ks| && ks[i] in ss && Stale(texts, ss[ks[i]]) :: !w.refusesSetting(ks[i]))
        && (forall i, cell | 0 <= i < |ts| && cell in Listed(w.listing(ts[i]).value) && Stale(columns, cs[cell]) ::
            !w.refuses(cell))
    {
      forall i | 0 <= i < |ts|
        ensures TargetOk(cs, ts[i], w, false) <==>
          forall cell | cell in Listed(w.listing(ts[i]).value) && Stale(columns, cs[cell]) :: !w.refuses(cell)
      {
        assert TargetOk(cs, ts[i], w, true);
      }
    }
  }
}
