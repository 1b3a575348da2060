/**
 * `Zendesk::UsersImportService`: before the generic import, local users that
 * already exist in the destination (same email) are marked synced with the
 * destination's id, so the worker loop never claims them.
 */
module UsersImportService {
  import opened Wrappers
  import Text
  import Seqs
  import UserConverter
  import ImportResource

  type FdUser = UserConverter.FdUser
  type UserRow = ImportResource.Row<FdUser>

  /** Downcased email → ids of the local users with that email, in iteration order. */
  type UsersHash = map<string, seq<nat>>

  /** The buffered pre-match writes are flushed once they reach this many. */
  const FLUSH_AT: nat := 100

  /** `UsersImportService#batch_size`. */
  const USERS_BATCH_SIZE: nat := 100

  /**
   * The hash key of a local user: `columns['email'].presence ||
   * columns['contact']['email']`, downcased. None when computing it raises
   * (no contact object to fall back on, or a nil email to downcase).
   */
  function EmailKey(u: FdUser): (r: Option<string>)
    ensures Text.Presence(u.email).Some? ==> r == Some(Text.Downcase(u.email.value))
    ensures Text.Presence(u.email).None? && u.contact.None? ==> r.None?
    ensures Text.Presence(u.email).None? && u.contact.Some? ==>
              r == (var e := UserConverter.Field(u.contact.value, "email"); if e.None? then None else Some(Text.Downcase(e.value)))
  {
    var email := if Text.Presence(u.email).Some? then u.email
                 else if u.contact.None? then None
                 else UserConverter.Field(u.contact.value, "email");
    if email.None? then None else Some(Text.Downcase(email.value))
  }

  function Add(h: UsersHash, key: string, id: nat): UsersHash {
    h[key := (if key in h then h[key] else []) + [id]]
  }

  /** `build_users_hash` over the rows in iteration order: None when a key cannot be computed. */
  function HashOf(rows: seq<UserRow>): Option<UsersHash>
    decreases |rows|
  {
    if rows == [] then Some(map[])
    else
      var h := HashOf(rows[..|rows| - 1]);
      var u := rows[|rows| - 1];
      if h.None? then None
      else if u.status == ImportResource.Synced then h
      else
        var key := EmailKey(u.columns);
        if key.None? then None else Some(Add(h.value, key.value, u.id))
  }

  /** Reference: the ids of the non-synced rows whose key is `key`, in order. */
  function IdsWithKey(rows: seq<UserRow>, key: string): seq<nat>
    decreases |rows|
  {
    if rows == [] then []
    else
      var u := rows[|rows| - 1];
      IdsWithKey(rows[..|rows| - 1], key)
        + (if u.status != ImportResource.Synced && EmailKey(u.columns) == Some(key) then [u.id] else [])
  }

  predicate Unkeyable(u: UserRow) {
    u.status != ImportResource.Synced && EmailKey(u.columns).None?
  }

  /**
   * The hash exists unless some non-synced user has no key; then its keys
   * are exactly the keys of the non-synced users, each listing all of their
   * ids in iteration order; synced users are never listed.
   */
  lemma {:induction false} HashOfSpec(rows: seq<UserRow>)
    ensures HashOf(rows).None? <==> exists k | 0 <= k < |rows| :: Unkeyable(rows[k])
    ensures HashOf(rows).Some? ==> forall key :: (key in HashOf(rows).value <==> IdsWithKey(rows, key) != [])
    ensures HashOf(rows).Some? ==> forall key | key in HashOf(rows).value :: HashOf(rows).value[key] == IdsWithKey(rows, key)
    decreases |rows|
  {
    if rows != [] {
      var init := rows[..|rows| - 1];
      var u := rows[|rows| - 1];
      HashOfSpec(init);
      if exists k | 0 <= k < |init| :: Unkeyable(init[k]) {
        var k :| 0 <= k < |init| && Unkeyable(init[k]);
        assert rows[k] == init[k];
      } else if Unkeyable(u) {
      } else {
        assert forall k | 0 <= k < |rows| :: !Unkeyable(rows[k]) by {
          forall k | 0 <= k < |rows| ensures !Unkeyable(rows[k]) {
            if k < |init| { assert rows[k] == init[k]; }
          }
        }
      }
    }
  }

  /** Every key is already downcased. */
  lemma {:induction false} KeysAreDowncased(rows: seq<UserRow>)
    requires HashOf(rows).Some?
    ensures forall key | key in HashOf(rows).value :: Text.Downcase(key) == key
    decreases |rows|
  {
    if rows != [] {
      var init := rows[..|rows| - 1];
      KeysAreDowncased(init);
      var u := rows[|rows| - 1];
      if u.status != ImportResource.Synced {
        var e := EmailKey(u.columns).value;
        var email := if Text.Presence(u.columns.email).Some? then u.columns.email.value
                     else UserConverter.Field(u.columns.contact.value, "email").value;
        assert e == Text.Downcase(email);
        Text.DowncaseIdempotent(email);
      }
    }
  }

  lemma {:induction false} HashOfNoneSticks(rows: seq<UserRow>, i: nat)
    requires i <= |rows| && HashOf(rows[..i]).None?
    ensures HashOf(rows).None?
    decreases |rows| - i
  {
    if i < |rows| {
      assert rows[..i + 1][..i] == rows[..i];
      HashOfNoneSticks(rows, i + 1);
    } else {
      assert rows[..i] == rows;
    }
  }

  /** `build_users_hash`: one pass over the non-synced users, appending each id under its key. */
  method BuildUsersHash(rows: seq<UserRow>) returns (hash: Option<UsersHash>)
    ensures hash == HashOf(rows)
  {
    var h: UsersHash := map[];
    var i := 0;
    while i < |rows|
      invariant 0 <= i <= |rows|
      invariant HashOf(rows[..i]) == Some(h)
      decreases |rows| - i
    {
      assert rows[..i + 1][..i] == rows[..i];
      var user := rows[i];
      if user.status != ImportResource.Synced {
        var key := EmailKey(user.columns);
        if key.None? {
          assert HashOf(rows[..i + 1]).None?;
          HashOfNoneSticks(rows, i + 1);
          return None;
        }
        h := Add(h, key.value, user.id);
      }
      i := i + 1;
    }
    assert rows[..i] == rows;
    hash := Some(h);
  }

  /** A destination user as listed by `each_user`. */
  datatype DestUser = DestUser(id: int, email: Option<string>)

  /**
   * The writes for one destination user: every local id listed under its
   * email becomes synced with the destination id. The email is looked up as
   * given, not downcased; a nil email is never a key.
   */
  function MatchWrites(h: UsersHash, d: DestUser): (ws: seq<ImportResource.Write>)
    ensures ImportResource.AllPreMatched(ws)
    ensures d.email.Some? && d.email.value in h ==>
      |ws| == |h[d.email.value]| && forall k | 0 <= k < |ws| :: ws[k] == ImportResource.PreMatched(h[d.email.value][k], Some(d.id))
    ensures !(d.email.Some? && d.email.value in h) ==> ws == []
  {
    if d.email.Some? && d.email.value in h then
      var ids := h[d.email.value];
      seq(|ids|, k requires 0 <= k < |ids| => ImportResource.PreMatched(ids[k], Some(d.id)))
    else []
  }

  /** All pre-match writes, in listing order. */
  function Matches(h: UsersHash, dests: seq<DestUser>): (ws: seq<ImportResource.Write>)
    ensures ImportResource.AllPreMatched(ws)
    decreases |dests|
  {
    if dests == [] then [] else MatchWrites(h, dests[0]) + Matches(h, dests[1..])
  }

  /**
   * `scan_pre_created_users`: buffers the writes of each matching destination
   * user and flushes the buffer with one upsert once it holds at least 100,
   * and the remainder at the end. `flushes` are the upserts, in order: each
   * is non-empty, all but the last hold at least 100 writes, and together
   * they are every pre-match write exactly once.
   */
  method ScanPreCreatedUsers(store: ImportResource.Store<FdUser>, h: UsersHash, dests: seq<DestUser>)
    returns (flushes: seq<seq<ImportResource.Write>>)
    requires store.Valid()
    modifies store
    ensures store.Valid() && ImportResource.SameRecords(old(store.rows), store.rows)
    ensures Seqs.Flatten(flushes) == Matches(h, dests)
    ensures forall j | 0 <= j < |flushes| :: |flushes[j]| > 0
    ensures forall j | 0 <= j < |flushes| - 1 :: |flushes[j]| >= FLUSH_AT
    ensures store.rows == ImportResource.Upsert(old(store.rows), Matches(h, dests))
  {
    flushes := [];
    var data: seq<ImportResource.Write> := [];
    var i := 0;
    assert Seqs.Flatten(flushes) + data + Matches(h, dests[0..]) == Matches(h, dests) by {
      assert dests[0..] == dests;
      assert Seqs.Flatten(flushes) == [];
    }
    while i < |dests|
      invariant 0 <= i <= |dests|
      invariant Scanning(store, old(store.rows), flushes, data)
      invariant Seqs.Flatten(flushes) + data + Matches(h, dests[i..]) == Matches(h, dests)
      decreases |dests| - i
    {
      MatchesStep(h, dests, i);
      ghost var before := Seqs.Flatten(flushes) + data;
      flushes, data := ScanStep(store, old(store.rows), h, dests[i], flushes, data);
      Regroup(before, MatchWrites(h, dests[i]), Matches(h, dests[i + 1..]), Seqs.Flatten(flushes) + data);
      i := i + 1;
    }
    assert Matches(h, dests[i..]) == [] by {
      assert dests[i..] == [];
    }
    assert Seqs.Flatten(flushes) + data == Matches(h, dests);
    flushes := FinalFlush(store, old(store.rows), flushes, data);
  }

  /** `User.upsert_all(data) if data.present?` after the listing. */
  method FinalFlush(store: ImportResource.Store<FdUser>, ghost start: seq<UserRow>,
                    flushes: seq<seq<ImportResource.Write>>, data: seq<ImportResource.Write>)
    returns (flushes': seq<seq<ImportResource.Write>>)
    requires Scanning(store, start, flushes, data)
    modifies store
    ensures store.Valid() && ImportResource.SameRecords(start, store.rows)
    ensures Seqs.Flatten(flushes') == Seqs.Flatten(flushes) + data
    ensures forall j | 0 <= j < |flushes'| - 1 :: |flushes'[j]| >= FLUSH_AT
    ensures (forall j | 0 <= j < |flushes| :: |flushes[j]| > 0) ==> forall j | 0 <= j < |flushes'| :: |flushes'[j]| > 0
    ensures store.rows == ImportResource.Upsert(start, Seqs.Flatten(flushes) + data)
  {
    flushes' := flushes;
    if data != [] {
      Flush(store, start, flushes, data);
      Seqs.FlattenSnoc(flushes, data);
      flushes' := flushes + [data];
    } else {
      assert Seqs.Flatten(flushes) + data == Seqs.Flatten(flushes);
    }
  }

  lemma Regroup<T>(a: seq<T>, b: seq<T>, c: seq<T>, d: seq<T>)
    requires d == a + b
    ensures d + c == a + (b + c)
  {
  }

  /** The scan's state: the table is the start upserted with the flushes; the buffer is below the threshold. */
  ghost predicate Scanning(store: ImportResource.Store<FdUser>, start: seq<UserRow>,
                           flushes: seq<seq<ImportResource.Write>>, data: seq<ImportResource.Write>)
    reads store
  {
    && store.Valid() && ImportResource.SameRecords(start, store.rows)
    && store.rows == ImportResource.Upsert(start, Seqs.Flatten(flushes))
    && (forall j | 0 <= j < |flushes| :: |flushes[j]| >= FLUSH_AT)
    && |data| < FLUSH_AT
  }

  /** One destination user of the scan: buffer its writes when its email is a key, and flush at the threshold. */
  method ScanStep(store: ImportResource.Store<FdUser>, ghost start: seq<UserRow>, h: UsersHash, user: DestUser,
                  flushes: seq<seq<ImportResource.Write>>, data: seq<ImportResource.Write>)
    returns (flushes': seq<seq<ImportResource.Write>>, data': seq<ImportResource.Write>)
    requires Scanning(store, start, flushes, data)
    modifies store
    ensures Scanning(store, start, flushes', data')
    ensures Seqs.Flatten(flushes') + data' == Seqs.Flatten(flushes) + data + MatchWrites(h, user)
  {
    flushes', data' := flushes, data;
    if !(user.email.Some? && user.email.value in h) {
      assert MatchWrites(h, user) == [];
      return;
    }
    data' := data + MatchWrites(h, user);
    if |data'| < FLUSH_AT {
      return;
    }
    Flush(store, start, flushes, data');
    Seqs.FlattenSnoc(flushes, data');
    flushes' := flushes + [data'];
    data' := [];
  }

  /** One `User.upsert_all(data)` of the scan: the table is then the start upserted with every flush so far. */
  method Flush(store: ImportResource.Store<FdUser>, ghost start: seq<UserRow>,
               flushes: seq<seq<ImportResource.Write>>, data: seq<ImportResource.Write>)
    requires store.Valid() && ImportResource.SameRecords(start, store.rows)
    requires store.rows == ImportResource.Upsert(start, Seqs.Flatten(flushes))
    modifies store
    ensures store.Valid() && ImportResource.SameRecords(start, store.rows)
    ensures store.rows == ImportResource.Upsert(start, Seqs.Flatten(flushes + [data]))
  {
    ghost var before := store.rows;
    store.UpsertAll(data);
    Seqs.FlattenSnoc(flushes, data);
    ImportResource.UpsertConcat(start, Seqs.Flatten(flushes), data);
    ImportResource.UpsertSameRecords(start, Seqs.Flatten(flushes + [data]));
  }

  lemma MatchesStep(h: UsersHash, dests: seq<DestUser>, i: nat)
    requires i < |dests|
    ensures Matches(h, dests[i..]) == MatchWrites(h, dests[i]) + Matches(h, dests[i + 1..])
  {
    assert dests[i..][0] == dests[i] && dests[i..][1..] == dests[i + 1..];
  }

  /** The ids the scan writes. */
  function MatchedIds(h: UsersHash, dests: seq<DestUser>): set<nat> {
    set i | 0 <= i < |Matches(h, dests)| :: Matches(h, dests)[i].id
  }

  /** Destination user `d`'s email is a key of the hash whose list holds local id `id`. */
  predicate Lists(h: UsersHash, d: DestUser, id: nat) {
    d.email.Some? && d.email.value in h && id in h[d.email.value]
  }

  /** The id of the last destination user, in listing order, whose email lists local id `id`. */
  function LastMatch(h: UsersHash, dests: seq<DestUser>, id: nat): Option<int>
    decreases |dests|
  {
    if dests == [] then None
    else if LastMatch(h, dests[1..], id).Some? then LastMatch(h, dests[1..], id)
    else if Lists(h, dests[0], id) then Some(dests[0].id)
    else None
  }

  /** `LastMatch` is the id of the listing user no later user supersedes, and none when no user lists the id. */
  lemma {:induction false} LastMatchIsLastListing(h: UsersHash, dests: seq<DestUser>, id: nat)
    ensures LastMatch(h, dests, id).None? <==> forall j | 0 <= j < |dests| :: !Lists(h, dests[j], id)
    ensures forall j | 0 <= j < |dests| && Lists(h, dests[j], id) && (forall j' | j < j' < |dests| :: !Lists(h, dests[j'], id)) ::
              LastMatch(h, dests, id) == Some(dests[j].id)
    decreases |dests|
  {
    if dests != [] {
      var tail := dests[1..];
      LastMatchIsLastListing(h, tail, id);
      assert forall j | 0 < j < |dests| :: dests[j] == tail[j - 1];
      forall j | 0 <= j < |dests| && Lists(h, dests[j], id) && (forall j' | j < j' < |dests| :: !Lists(h, dests[j'], id))
        ensures LastMatch(h, dests, id) == Some(dests[j].id)
      {
        if j == 0 {
          assert forall j' | 0 <= j' < |tail| :: !Lists(h, tail[j'], id) by {
            forall j' | 0 <= j' < |tail| ensures !Lists(h, tail[j'], id) {
              assert tail[j'] == dests[j' + 1];
            }
          }
        } else {
          assert forall j' | j - 1 < j' < |tail| :: !Lists(h, tail[j'], id) by {
            forall j' | j - 1 < j' < |tail| ensures !Lists(h, tail[j'], id) {
              assert tail[j'] == dests[j' + 1];
            }
          }
        }
      }
    }
  }

  /** The last write for a local id within one destination user's writes. */
  lemma LastForMatchWrites(h: UsersHash, d: DestUser, id: nat)
    ensures ImportResource.LastFor(MatchWrites(h, d), id)
         == if Lists(h, d, id) then Some(ImportResource.PreMatched(id, Some(d.id))) else None
  {
    var ws := MatchWrites(h, d);
    ImportResource.LastForTargets(ws, id);
    if Lists(h, d, id) {
      var ids := h[d.email.value];
      var k :| 0 <= k < |ids| && ids[k] == id;
      assert ws[k].id == id;
    }
  }

  /** The last write of two concatenated upsert lists comes from the second list when it has one. */
  lemma {:induction false} LastForConcat(a: seq<ImportResource.Write>, b: seq<ImportResource.Write>, id: nat)
    ensures ImportResource.LastFor(a + b, id)
         == if ImportResource.LastFor(b, id).Some? then ImportResource.LastFor(b, id) else ImportResource.LastFor(a, id)
    decreases |a|
  {
    if a == [] {
      assert a + b == b;
    } else {
      assert (a + b)[1..] == a[1..] + b;
      LastForConcat(a[1..], b, id);
    }
  }

  /** The last pre-match write for a local id carries the id of the last destination user listing it. */
  lemma {:induction false} LastForMatches(h: UsersHash, dests: seq<DestUser>, id: nat)
    ensures ImportResource.LastFor(Matches(h, dests), id)
         == if LastMatch(h, dests, id).Some? then Some(ImportResource.PreMatched(id, LastMatch(h, dests, id))) else None
    decreases |dests|
  {
    if dests != [] {
      LastForMatches(h, dests[1..], id);
      LastForConcat(MatchWrites(h, dests[0]), Matches(h, dests[1..]), id);
      LastForMatchWrites(h, dests[0], id);
    }
  }

  /**
   * After the scan a local user is unchanged unless some destination user's
   * email lists it; then it is synced with the id of the last such
   * destination user (its error column untouched).
   */
  lemma PreMatchOutcome(rows: seq<UserRow>, h: UsersHash, dests: seq<DestUser>, k: nat)
    requires k < |rows|
    ensures var r := ImportResource.Upsert(rows, Matches(h, dests));
      (forall j | 0 <= j < |dests| :: !Lists(h, dests[j], rows[k].id)) ==> r[k] == rows[k]
    ensures var r := ImportResource.Upsert(rows, Matches(h, dests));
      forall j | 0 <= j < |dests| && Lists(h, dests[j], rows[k].id) && (forall j' | j < j' < |dests| :: !Lists(h, dests[j'], rows[k].id)) ::
        r[k] == rows[k].(status := ImportResource.Synced, zdId := Some(dests[j].id))
    ensures var r := ImportResource.Upsert(rows, Matches(h, dests));
      rows[k].id in MatchedIds(h, dests) ==> r[k].status == ImportResource.Synced
  {
    var ws := Matches(h, dests);
    var id := rows[k].id;
    ImportResource.RowAfterIsLastWrite(rows[k], ws);
    LastForMatches(h, dests, id);
    LastMatchIsLastListing(h, dests, id);
    if id in MatchedIds(h, dests) {
      var i :| 0 <= i < |ws| && ws[i].id == id;
      ImportResource.LastForTargets(ws, id);
    }
  }

  /** Every pre-match write sets a destination id. */
  lemma {:induction false} MatchWritesCarryIds(h: UsersHash, dests: seq<DestUser>)
    ensures forall i | 0 <= i < |Matches(h, dests)| :: Matches(h, dests)[i].zdId.Some?
    decreases |dests|
  {
    if dests != [] {
      MatchWritesCarryIds(h, dests[1..]);
      var a: seq<ImportResource.Write> := MatchWrites(h, dests[0]);
      var b: seq<ImportResource.Write> := Matches(h, dests[1..]);
      forall i | 0 <= i < |a + b| ensures (a + b)[i].zdId.Some? {
        if i >= |a| { assert (a + b)[i] == b[i - |a|]; }
      }
    }
  }

  /** The lookup is case-sensitive: keys are downcased, destination emails are not. */
  lemma LookupIsCaseSensitive()
    ensures Matches(map["ann@example.com" := [1]], [DestUser(9, Some("Ann@example.com"))]) == []
  {
    assert "Ann@example.com" != "ann@example.com" by {
      assert "Ann@example.com"[0] != "ann@example.com"[0];
    }
    assert [DestUser(9, Some("Ann@example.com"))][1..] == [];
  }

  /**
   * The pre-match key prefers the top-level email, while the payload sent for
   * the same user prefers the contact's email: the two can differ.
   */
  lemma KeyMayDifferFromSubmittedEmail(utc: string -> string)
    ensures var u := UserConverter.FdUser(1, Some("a@example.com"), None, Some(map["email" := Some("b@example.com")]), "", "");
      EmailKey(u) == Some("a@example.com") && UserConverter.Convert(u, utc).email == Some("b@example.com")
  {
    var u := UserConverter.FdUser(1, Some("a@example.com"), None, Some(map["email" := Some("b@example.com")]), "", "");
    assert !Text.IsSpace(u.email.value[0]);
    assert |u.contact.value| > 0 by { assert "email" in u.contact.value; }
    assert Text.Downcase("a@example.com") == "a@example.com";
  }

  /**
   * `import`: build the hash (an unkeyable user makes it raise before any
   * write; `built` is then false), scan, then run the generic worker over the
   * store. The worker never claims a pre-matched user.
   */
  method Import(store: ImportResource.Store<FdUser>, dests: seq<DestUser>, utc: string -> string,
                replies: seq<ImportResource.BatchReply>)
    returns (built: bool, end: ImportResource.WorkerEnd, claims: seq<seq<UserRow>>)
    requires store.Valid()
    modifies store
    ensures store.Valid()
    ensures built <==> HashOf(old(store.rows)).Some?
    ensures !built ==> store.rows == old(store.rows) && claims == []
    ensures built ==> forall a, j | 0 <= a < |claims| && 0 <= j < |claims[a]| ::
              claims[a][j].id !in MatchedIds(HashOf(old(store.rows)).value, dests)
  {
    var hash := BuildUsersHash(store.rows);
    if hash.None? {
      return false, ImportResource.Crashed, [];
    }
    built := true;
    var flushes := ScanPreCreatedUsers(store, hash.value, dests);
    ghost var scanned := store.rows;
    var submitted, saved;
    end, claims, submitted, saved := store.ImportResources(USERS_BATCH_SIZE, (u: FdUser) => Some(UserConverter.Convert(u, utc)), replies);
    forall a, j | 0 <= a < |claims| && 0 <= j < |claims[a]|
      ensures claims[a][j].id !in MatchedIds(hash.value, dests)
    {
      assert claims[a][j] in scanned;
      var m :| 0 <= m < |scanned| && scanned[m] == claims[a][j];
      PreMatchOutcome(old(store.rows), hash.value, dests, m);
    }
  }
}
