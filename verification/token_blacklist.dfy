/**
 * `BlacklistedToken`: revoked JWT ids, one row per token, each with the time the
 * token itself expires. A token is blacklisted while its row exists; cleanup removes
 * the rows of tokens that have already expired.
 */
module TokenBlacklist {
  import opened Wrappers
  import opened Db

  datatype Entry = Entry(user: nat, blacklistedAt: Time, expiresAt: Time)

  /** The table, keyed by the unique `token` column. */
  type Blacklist = map<string, Entry>

  /** `objects.create(...)`: `blacklisted_at` is the insertion time; a token already present violates uniqueness. */
  function Add(b: Blacklist, token: string, user: nat, expiresAt: Time, now: Time): (r: Result<Blacklist, IntegrityError>)
    ensures r.Err? <==> token in b
    ensures r.Ok? ==> r.value == b[token := Entry(user, now, expiresAt)]
  {
    if token in b then Err(UniqueViolation(["token"])) else Ok(b[token := Entry(user, now, expiresAt)])
  }

  /** `is_blacklisted`. */
  predicate IsBlacklisted(b: Blacklist, token: string)
  {
    token in b
  }

  /** The tokens whose `expires_at` is strictly before `now`. */
  function Expired(b: Blacklist, now: Time): set<string>
  {
    set t | t in b && b[t].expiresAt < now
  }

  /** `cleanup_expired`: delete the expired rows and report how many there were. */
  function CleanupExpired(b: Blacklist, now: Time): (r: (Blacklist, nat))
    ensures r.0.Keys <= b.Keys
    ensures r.1 == |b.Keys| - |r.0.Keys|
  {
    var expired := Expired(b, now);
    (b - expired, |expired|)
  }

  /**
   * After cleanup exactly the unexpired tokens are still blacklisted, with their rows
   * unchanged, and the count is the number of expired tokens.
   */
  lemma CleanupSpec(b: Blacklist, now: Time, token: string)
    ensures var (c, n) := CleanupExpired(b, now);
      && (IsBlacklisted(c, token) <==> IsBlacklisted(b, token) && b[token].expiresAt >= now)
      && (token in c ==> c[token] == b[token])
      && n == |Expired(b, now)|
  {
  }

  /** A second cleanup at the same instant removes nothing. */
  lemma CleanupIdempotent(b: Blacklist, now: Time)
    ensures var (c, _) := CleanupExpired(b, now);
      CleanupExpired(c, now) == (c, 0)
  {
    var (c, _) := CleanupExpired(b, now);
    assert Expired(c, now) == {};
    assert c - {} == c;
  }

  /** A token added is blacklisted at once and survives cleanup until it expires. */
  lemma AddThenCleanup(b: Blacklist, token: string, user: nat, expiresAt: Time, now: Time, later: Time)
    requires token !in b
    ensures var c := Add(b, token, user, expiresAt, now).value;
      && IsBlacklisted(c, token)
      && (IsBlacklisted(CleanupExpired(c, later).0, token) <==> later <= expiresAt)
  {
  }
}
