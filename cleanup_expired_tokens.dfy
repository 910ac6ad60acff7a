/**
 * src/cron/cleanupExpiredTokens.cron.ts: the hourly callback. One bulk update soft-revokes
 * every refresh-token row whose stored expiry lies strictly before now; the filter has no
 * `is_active` condition, so rows revoked earlier are matched, re-stamped and counted again.
 */
module CleanupExpiredTokens {
  import opened Wrappers
  import opened Numerals
  import opened AuthRepository

  /** The rows the bulk update matches: expiry strictly before now, whatever `is_active` says. */
  function ExpiredIds(rows: map<Id, TokenRow>, now: int): (ids: set<Id>)
    ensures ids <= rows.Keys
    ensures forall id :: id in ids <==> id in rows && rows[id].expires_at < now
  {
    set id | id in rows && rows[id].expires_at < now
  }

  /** One row after the bulk update at time now. */
  function SweepRow(row: TokenRow, now: int): (r: TokenRow)
    ensures row.expires_at < now ==> !r.is_active && r.revoked_at == Some(now)
    ensures now <= row.expires_at ==> r == row
    ensures r.(is_active := row.is_active, revoked_at := row.revoked_at) == row
  {
    if row.expires_at < now then Revoked(row, now) else row
  }

  /** The table after the bulk update at time now. */
  function Swept(rows: map<Id, TokenRow>, now: int): (r: map<Id, TokenRow>)
    ensures r.Keys == rows.Keys
    ensures forall id :: id in ExpiredIds(rows, now) ==> !r[id].is_active && r[id].revoked_at == Some(now)
    ensures forall id :: id in rows && id !in ExpiredIds(rows, now) ==> r[id] == rows[id]
    ensures forall id :: id in rows ==> r[id].(is_active := rows[id].is_active, revoked_at := rows[id].revoked_at) == rows[id]
  {
    map id | id in rows :: SweepRow(rows[id], now)
  }

  /** The update itself: every matching row in turn, counting the rows it touched. */
  method RevokeExpired(store: TokenStore, now: int) returns (count: nat)
    requires store.Valid()
    modifies store
    ensures store.Valid()
    ensures store.rows == Swept(old(store.rows), now)
    ensures count == |ExpiredIds(old(store.rows), now)|
  {
    ghost var original := store.rows;
    ghost var expired := ExpiredIds(original, now);
    var pending := store.rows.Keys;
    count := 0;
    while pending != {}
      invariant store.Valid()
      invariant pending <= original.Keys
      invariant SweptExcept(original, store.rows, pending, now)
      invariant count == |expired - pending|
      decreases pending
    {
      var id :| id in pending;
      MatchedStep(expired, pending, id);
      ghost var before := store.rows;
      var matched := SweepOne(store, id, now);
      SweptExceptStep(original, before, pending, id, now);
      if matched {
        count := count + 1;
      }
      pending := pending - {id};
    }
    SweptPointwise(original, store.rows, now);
  }

  /** `current` is `rows` swept everywhere except on the still `pending` ids, which are untouched. */
  predicate SweptExcept(rows: map<Id, TokenRow>, current: map<Id, TokenRow>, pending: set<Id>, now: int) {
    && current.Keys == rows.Keys
    && (forall id :: id in pending && id in rows ==> current[id] == rows[id])
    && (forall id :: id in rows && id !in pending ==> current[id] == SweepRow(rows[id], now))
  }

  /** Sweeping one pending row moves it from the untouched part to the swept part. */
  lemma SweptExceptStep(rows: map<Id, TokenRow>, current: map<Id, TokenRow>, pending: set<Id>, id: Id, now: int)
    requires SweptExcept(rows, current, pending, now) && id in pending && id in rows
    ensures SweptExcept(rows, current[id := SweepRow(current[id], now)], pending - {id}, now)
  {
  }

  /** The bulk update's effect on the single row `id`; true when the row matched the filter. */
  method SweepOne(store: TokenStore, id: Id, now: int) returns (matched: bool)
    requires store.Valid() && id in store.rows
    modifies store
    ensures store.Valid()
    ensures matched <==> old(store.rows)[id].expires_at < now
    ensures store.rows == old(store.rows)[id := SweepRow(old(store.rows)[id], now)]
  {
    var row := store.rows[id];
    matched := row.expires_at < now;
    if matched {
      store.rows := store.rows[id := Revoked(row, now)];
    }
  }

  /** A table that agrees with the sweep on every row is the swept table. */
  lemma SweptPointwise(rows: map<Id, TokenRow>, after: map<Id, TokenRow>, now: int)
    requires after.Keys == rows.Keys
    requires forall id :: id in after ==> after[id] == SweepRow(rows[id], now)
    ensures after == Swept(rows, now)
  {
  }

  /** Taking one id off the pending set adds it to the matched-and-done set exactly when it matches. */
  lemma MatchedStep(expired: set<Id>, pending: set<Id>, id: Id)
    requires id in pending
    ensures id !in expired - pending
    ensures id in expired ==> |expired - (pending - {id})| == |expired - pending| + 1
    ensures id !in expired ==> |expired - (pending - {id})| == |expired - pending|
  {
    if id in expired {
      assert expired - (pending - {id}) == (expired - pending) + {id};
    } else {
      assert expired - (pending - {id}) == expired - pending;
    }
  }

  /** What the callback writes to the console. */
  const StartMessage := "Running expired token cleanup..."
  const FailureMessage := "Error during expired token cleanup:"

  function CleanedMessage(count: nat): (line: string)
    ensures |line| > 27 && line[..11] == "Cleaned up " && line[|line| - 16..] == " expired tokens."
    ensures AllDigits(line[11..|line| - 16]) && DigitsValue(line[11..|line| - 16]) == count
  {
    var digits := Decimal(count);
    var line := "Cleaned up " + digits + " expired tokens.";
    assert line[11..|line| - 16] == digits;
    DecimalRoundTrip(count);
    line
  }

  /**
   * One run of the scheduled callback. `storeAvailable` stands for whether the database
   * answers; a failure is caught and logged, and nothing is thrown out of the callback.
   */
  method CleanupTick(store: TokenStore, now: int, storeAvailable: bool) returns (log: seq<string>)
    requires store.Valid()
    modifies store
    ensures store.Valid()
    ensures storeAvailable ==>
              && store.rows == Swept(old(store.rows), now)
              && log == [StartMessage, CleanedMessage(|ExpiredIds(old(store.rows), now)|)]
    ensures !storeAvailable ==> store.rows == old(store.rows) && log == [StartMessage, FailureMessage]
  {
    log := [StartMessage];
    if !storeAvailable {
      log := log + [FailureMessage];
      return;
    }
    var count := RevokeExpired(store, now);
    log := log + [CleanedMessage(count)];
  }

  /** Sweeping never changes an expiry, so a second sweep at the same time counts the same rows again. */
  lemma {:induction false} SecondSweepRecounts(rows: map<Id, TokenRow>, now: int)
    ensures ExpiredIds(Swept(rows, now), now) == ExpiredIds(rows, now)
    ensures |ExpiredIds(Swept(rows, now), now)| == |ExpiredIds(rows, now)|
  {
    var once := Swept(rows, now);
    forall id | id in once
      ensures once[id].expires_at == rows[id].expires_at
    {
      if id in ExpiredIds(rows, now) {
        assert once[id] == Revoked(rows[id], now);
      }
    }
  }

  /** Only `is_active` is idempotent across sweeps: a later sweep re-stamps `revoked_at`. */
  lemma {:induction false} LaterSweepRestamps(rows: map<Id, TokenRow>, t1: int, t2: int)
    requires t1 <= t2
    ensures forall id :: id in rows ==> (Swept(Swept(rows, t1), t2)[id].is_active <==> rows[id].is_active && t2 <= rows[id].expires_at)
    ensures forall id :: id in ExpiredIds(rows, t1) ==> Swept(Swept(rows, t1), t2)[id].revoked_at == Some(t2)
    ensures ExpiredIds(rows, t1) <= ExpiredIds(Swept(rows, t1), t2)
  {
    var once := Swept(rows, t1);
    forall id | id in rows
      ensures once[id].expires_at == rows[id].expires_at
    {
      if id in ExpiredIds(rows, t1) {
        assert once[id] == Revoked(rows[id], t1);
      }
    }
  }

  /** At the same time the `is_active` projection is a fixed point of the sweep. */
  lemma {:induction false} SweepActiveIdempotent(rows: map<Id, TokenRow>, now: int)
    ensures forall id :: id in rows ==> Swept(Swept(rows, now), now)[id].is_active == Swept(rows, now)[id].is_active
  {
    SecondSweepRecounts(rows, now);
  }
}
