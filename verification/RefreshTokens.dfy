/**
 backend/internal/auth/refresh.go and the refresh part of purgeAuth in
 backend/internal/retention/worker.go: one-time-use tokens in families.
 */
module RefreshTokens {
  import opened Basics

  type Digest = seq<bv8>

  /** A row of refresh_tokens; times are seconds. */
  datatype Row = Row(
    device: string, family: string, tokenHash: Digest,
    usedAt: Option<int>, revokedAt: Option<int>, expiresAt: int)

  type Table = map<string, Row>

  datatype Outcome =
    | Issued(token: string)
    | Rotated(token: string, device: string, family: string)
    | ErrBadRefresh
    | ErrReplayed(family: string)
    | ErrDb
    | Done

  const DAY: int := 86400

  /** The database clock NOW() and the server's own time.Now(). */
  datatype Clock = Clock(db: int, app: int)

  /** SHA-256 as an arbitrary function, and the token lifetime. */
  datatype Settings = Settings(sha256: string -> Digest, ttl: int)

  // ---- Token text -----------------------------------------------------------

  const DOT: string := "."

  /** The part before the first dot, and the part after it. */
  function SplitToken(s: string): Option<(string, string)>
  {
    if s == [] then None
    else if s[0] == '.' then Some(([], s[1..]))
    else match SplitToken(s[1..])
      case None => None
      case Some((id, raw)) => Some(([s[0]] + id, raw))
  }

  lemma {:induction false} SplitJoined(id: string, raw: string)
    requires '.' !in id
    ensures SplitToken(id + DOT + raw) == Some((id, raw))
  {
    var s := id + DOT + raw;
    if id == [] {
      assert s[1..] == raw;
    } else {
      assert s[0] == id[0] && s[1..] == id[1..] + DOT + raw;
      SplitJoined(id[1..], raw);
      assert [id[0]] + id[1..] == id;
    }
  }

  lemma {:induction false} SplitIsFirstDot(s: string)
    ensures match SplitToken(s)
            case None => '.' !in s
            case Some((id, raw)) => '.' !in id && s == id + DOT + raw
  {
    if s != [] && s[0] != '.' {
      SplitIsFirstDot(s[1..]);
      assert s == [s[0]] + s[1..];
    }
  }

  method SplitRefresh(s: string) returns (id: string, raw: string, ok: bool)
    ensures SplitToken(s) == if ok then Some((id, raw)) else None
  {
    var i := 0;
    while i < |s|
      invariant 0 <= i <= |s| && '.' !in s[..i]
    {
      if s[i] == '.' {
        assert s == s[..i] + DOT + s[i + 1..];
        SplitJoined(s[..i], s[i + 1..]);
        return s[..i], s[i + 1..], true;
      }
      i := i + 1;
    }
    SplitIsFirstDot(s);
    assert s[..i] == s;
    return "", "", false;
  }

  /** Constant time: every byte is looked at, and the difference bits are collected. */
  method CtEq(a: Digest, b: Digest) returns (eq: bool)
    ensures eq <==> a == b
  {
    if |a| != |b| {
      return false;
    }
    var v: bv8 := 0;
    var i := 0;
    while i < |a|
      invariant 0 <= i <= |a|
      invariant v == 0 <==> a[..i] == b[..i]
    {
      NoDifference(v, a[i], b[i]);
      assert a[..i + 1] == a[..i] + [a[i]] && b[..i + 1] == b[..i] + [b[i]];
      v := v | (a[i] ^ b[i]);
      i := i + 1;
    }
    assert a[..i] == a && b[..i] == b;
    return v == 0;
  }

  lemma NoDifference(v: bv8, x: bv8, y: bv8)
    ensures v | (x ^ y) == 0 <==> v == 0 && x == y
  {
  }

  // ---- The statements -------------------------------------------------------

  function NewRow(s: Settings, device: string, family: string, raw: string, now: Clock): Row
  {
    Row(device, family, s.sha256(raw), None, None, now.app + s.ttl)
  }

  function Issue(s: Settings, t: Table, device: string, family: string, id: string, raw: string, now: Clock): (Table, Outcome)
  {
    if id in t then (t, ErrDb)
    else (t[id := NewRow(s, device, family, raw, now)], Issued(id + DOT + raw))
  }

  /** Not rotatable at `app` time, whatever else is in the table. */
  predicate Dead(r: Row, app: int) { r.revokedAt.Some? || app > r.expiresAt }

  function RevokeFamily(t: Table, family: string, now: Clock): Table
  {
    map id | id in t :: if t[id].family == family && t[id].revokedAt.None? then t[id].(revokedAt := Some(now.db)) else t[id]
  }

  function Rotate(s: Settings, t: Table, presented: string, newId: string, newRaw: string, now: Clock): (Table, Outcome)
  {
    match SplitToken(presented)
    case None => (t, ErrBadRefresh)
    case Some((id, raw)) =>
      if id !in t || t[id].tokenHash != s.sha256(raw) || Dead(t[id], now.app) then (t, ErrBadRefresh)
      else if t[id].usedAt.Some? then (RevokeFamily(t, t[id].family, now), ErrReplayed(t[id].family))
      else if newId in t then (t, ErrDb)
      else
        (t[id := t[id].(usedAt := Some(now.db))]
          [newId := NewRow(s, t[id].device, t[id].family, newRaw, now)],
         Rotated(newId + DOT + newRaw, t[id].device, t[id].family))
  }

  /** A second revocation stamps the row again. */
  function Revoke(t: Table, presented: string, now: Clock): (Table, Outcome)
  {
    match SplitToken(presented)
    case None => (t, ErrBadRefresh)
    case Some((id, _)) =>
      (if id in t then t[id := t[id].(revokedAt := Some(now.db))] else t, Done)
  }

  function RevokeDevice(t: Table, device: string, now: Clock): Table
  {
    map id | id in t :: if t[id].device == device && t[id].revokedAt.None? then t[id].(revokedAt := Some(now.db)) else t[id]
  }

  predicate Expendable(r: Row, db: int)
  {
    (r.revokedAt.Some? && r.revokedAt.value < db - 30 * DAY) || r.expiresAt < db - 7 * DAY
  }

  function Purge(t: Table, db: int): Table
  {
    map id | id in t && !Expendable(t[id], db) :: t[id]
  }

  /**
   The table and the functions of refresh.go over it. Each call is modelled as
   atomic: RefreshRotate is a serializable transaction, the others are single
   statements.
   */
  class RefreshStore {
    const settings: Settings
    var rows: Table

    constructor (s: Settings)
      ensures settings == s && rows == map[]
    {
      settings, rows := s, map[];
    }

    /** `id`, `raw` and `newFamily` are the random choices; an empty `familyID` starts a new family. */
    method RefreshIssue(deviceID: string, familyID: string, id: string, raw: string, newFamily: string, now: Clock)
      returns (out: Outcome)
      modifies this
      ensures (rows, out) == Issue(settings, old(rows), deviceID, if familyID == "" then newFamily else familyID, id, raw, now)
    {
      var family := familyID;
      if family == "" {
        family := newFamily;
      }
      var hash := settings.sha256(raw);
      if id in rows {
        return ErrDb;
      }
      rows := rows[id := Row(deviceID, family, hash, None, None, now.app + settings.ttl)];
      return Issued(id + DOT + raw);
    }

    method RefreshRotate(presented: string, newId: string, newRaw: string, now: Clock) returns (out: Outcome)
      modifies this
      ensures (rows, out) == Rotate(settings, old(rows), presented, newId, newRaw, now)
    {
      var id, raw, ok := SplitRefresh(presented);
      if !ok {
        return ErrBadRefresh;
      }
      var hash := settings.sha256(raw);
      if id !in rows {
        return ErrBadRefresh;
      }
      var row := rows[id];
      var same := CtEq(row.tokenHash, hash);
      if !same {
        return ErrBadRefresh;
      }
      if row.revokedAt.Some? || now.app > row.expiresAt {
        return ErrBadRefresh;
      }
      if row.usedAt.Some? {
        rows := map k | k in rows ::
          if rows[k].family == row.family && rows[k].revokedAt.None? then rows[k].(revokedAt := Some(now.db)) else rows[k];
        return ErrReplayed(row.family);
      }
      if newId in rows {
        return ErrDb;
      }
      rows := rows[id := row.(usedAt := Some(now.db))];
      var hashNew := settings.sha256(newRaw);
      rows := rows[newId := Row(row.device, row.family, hashNew, None, None, now.app + settings.ttl)];
      return Rotated(newId + DOT + newRaw, row.device, row.family);
    }

    method RefreshRevoke(presented: string, now: Clock) returns (out: Outcome)
      modifies this
      ensures (rows, out) == Revoke(old(rows), presented, now)
    {
      var id, _, ok := SplitRefresh(presented);
      if !ok {
        return ErrBadRefresh;
      }
      if id in rows {
        rows := rows[id := rows[id].(revokedAt := Some(now.db))];
      }
      return Done;
    }

    method RefreshRevokeDevice(deviceID: string, now: Clock)
      modifies this
      ensures rows == RevokeDevice(old(rows), deviceID, now)
    {
      rows := map k | k in rows ::
        if rows[k].device == deviceID && rows[k].revokedAt.None? then rows[k].(revokedAt := Some(now.db)) else rows[k];
    }

    method PurgeAuth(now: Clock)
      modifies this
      ensures rows == Purge(old(rows), now.db)
    {
      rows := map k | k in rows && !Expendable(rows[k], now.db) :: rows[k];
    }
  }
}
