/** Refresh tokens: the table that stores their hashes, the use case that hands them out and
    exchanges them, and what every serial run of sign-in, refresh and logout keeps. */
module RefreshTokens {
  import opened Prelude
  import opened Counting
  import opened Base64Url
  import Jwt

  /** A row of `refresh_tokens`. */
  datatype Row = Row(userID: int, hash: string, issuedAt: int, expiresAt: int, revoked: bool)

  /** What `issueTokens` reads from outside: its clock, the random bytes if the source gave any, and
      how the insert ends. */
  datatype Mint = Mint(now: int, random: Option<seq<Byte>>, save: Outcome)

  datatype Config = Config(
    sha: seq<Byte> -> seq<Byte>, secret: seq<Byte>, mac: Jwt.Mac, accessTTL: int, refreshTTL: int)

  datatype Tokens = Tokens(access: string, refresh: string, userID: int)

  datatype AuthError = InvalidCredentials | GenRefresh | SaveRefresh | RevokeFailed

  function RawToken(bytes: seq<Byte>): string {
    EncodeRaw(bytes)
  }

  function HashToken(raw: string, cfg: Config): string {
    EncodeRaw(cfg.sha(Jwt.Bytes(raw)))
  }

  lemma EncodeRawInjective(a: seq<Byte>, b: seq<Byte>)
    requires EncodeRaw(a) == EncodeRaw(b)
    ensures a == b
  {
    TrimGivesRaw(a);
    TrimGivesRaw(b);
    DecodeInverts(a);
    DecodeInverts(b);
  }

  /** Random bytes never drawn before give a hash never stored before, when the digest does not
      collide: the freshness that runs rest on. */
  lemma FreshBytesFreshHash(a: seq<Byte>, b: seq<Byte>, cfg: Config)
    requires a != b
    requires cfg.sha(Jwt.Bytes(RawToken(a))) == cfg.sha(Jwt.Bytes(RawToken(b))) ==>
               Jwt.Bytes(RawToken(a)) == Jwt.Bytes(RawToken(b))
    ensures HashToken(RawToken(a), cfg) != HashToken(RawToken(b), cfg)
  {
    if HashToken(RawToken(a), cfg) == HashToken(RawToken(b), cfg) {
      EncodeRawInjective(cfg.sha(Jwt.Bytes(RawToken(a))), cfg.sha(Jwt.Bytes(RawToken(b))));
      PlainBelow256(RawToken(a));
      PlainBelow256(RawToken(b));
      Jwt.SameBytes(RawToken(a), RawToken(b));
      EncodeRawInjective(a, b);
      assert false;
    }
  }

  lemma PlainBelow256(s: string)
    requires forall i :: 0 <= i < |s| ==> ValueOf(s[i]).Some?
    ensures forall i :: 0 <= i < |s| ==> s[i] < 256 as char
  {
  }

  // ----- statements

  predicate Valid(r: Row, hash: string, dbNow: int) {
    r.hash == hash && !r.revoked && r.expiresAt > dbNow
  }

  /** A legal answer of `FindValid`: any row that qualifies; nothing when the query failed or no row
      qualifies. */
  ghost predicate Answers(rows: seq<Row>, hash: string, dbNow: int, queryFails: bool, found: Option<nat>) {
    match found
    case Some(k) => !queryFails && k < |rows| && Valid(rows[k], hash, dbNow)
    case None => queryFails || forall i :: 0 <= i < |rows| ==> !Valid(rows[i], hash, dbNow)
  }

  function Revoked(rows: seq<Row>, hash: string): seq<Row> {
    seq(|rows|, i requires 0 <= i < |rows| =>
      if rows[i].hash == hash then rows[i].(revoked := true) else rows[i])
  }

  function AfterRevoke(rows: seq<Row>, hash: string, outcome: Outcome): seq<Row> {
    if outcome.Failed? then rows else Revoked(rows, hash)
  }

  function AfterCreate(rows: seq<Row>, r: Row, outcome: Outcome): seq<Row> {
    if outcome.Failed? then rows else rows + [r.(revoked := false)]
  }

  /** Unless the insert was lost there is one row more, live, with what `r` says; none is changed. */
  predicate Stored(before: seq<Row>, after: seq<Row>, r: Row, outcome: Outcome) {
    if outcome.Failed? then after == before
    else
      && before < after && |after| == |before| + 1
      && var added := after[|before|];
         !added.revoked && added.userID == r.userID && added.hash == r.hash
         && added.issuedAt == r.issuedAt && added.expiresAt == r.expiresAt
  }

  lemma StoredIsAppended(before: seq<Row>, after: seq<Row>, r: Row, outcome: Outcome)
    ensures Stored(before, after, r, outcome) <==> after == AfterCreate(before, r, outcome)
  {
    if Stored(before, after, r, outcome) && !outcome.Failed? {
      assert after == before + [after[|before|]];
      assert after[|before|] == r.(revoked := false);
    }
  }

  /** The row is the same but for the flag, which goes up if `hit`. */
  predicate Flagged(before: Row, after: Row, hit: bool) {
    && after.userID == before.userID && after.hash == before.hash
    && after.issuedAt == before.issuedAt && after.expiresAt == before.expiresAt
    && (after.revoked <==> before.revoked || hit)
  }

  class RefreshTokenRepo {
    var rows: seq<Row>

    constructor ()
      ensures rows == []
    {
      rows := [];
    }

    method Create(r: Row, outcome: Outcome) returns (failed: bool)
      modifies this
      ensures Stored(old(rows), rows, r, outcome)
      ensures old(rows) <= rows && |rows| == |old(rows)| + if outcome == Failed then 0 else 1
      ensures outcome != Failed ==>
                rows[|rows| - 1] == Row(r.userID, r.hash, r.issuedAt, r.expiresAt, false)
      ensures failed == !outcome.Durable?
    {
      if !outcome.Failed? {
        rows := rows + [r.(revoked := false)];
      }
      failed := !outcome.Durable?;
    }

    method FindValid(hash: string, dbNow: int, queryFails: bool) returns (found: Option<nat>)
      ensures Answers(rows, hash, dbNow, queryFails, found)
      ensures found.Some? ==>
                && !queryFails && found.value < |rows| && rows[found.value].hash == hash
                && !rows[found.value].revoked && rows[found.value].expiresAt > dbNow
      ensures found.None? && !queryFails ==>
                forall i :: 0 <= i < |rows| && rows[i].hash == hash ==> rows[i].revoked || rows[i].expiresAt <= dbNow
    {
      if queryFails {
        return None;
      }
      for i := 0 to |rows|
        invariant forall j :: 0 <= j < i ==> !Valid(rows[j], hash, dbNow)
      {
        if Valid(rows[i], hash, dbNow) {
          return Some(i);
        }
      }
      return None;
    }

    method Revoke(hash: string, outcome: Outcome) returns (failed: bool)
      modifies this
      ensures rows == AfterRevoke(old(rows), hash, outcome)
      ensures |rows| == |old(rows)|
      ensures forall i :: 0 <= i < |rows| ==>
                Flagged(old(rows)[i], rows[i], outcome != Failed && old(rows)[i].hash == hash)
      ensures failed == !outcome.Durable?
    {
      if !outcome.Failed? {
        for i := 0 to |rows|
          invariant |rows| == old(|rows|)
          invariant forall j :: 0 <= j < i ==> rows[j] == Revoked(old(rows), hash)[j]
          invariant forall j :: i <= j < |rows| ==> rows[j] == old(rows)[j]
        {
          if rows[i].hash == hash {
            rows := rows[i := rows[i].(revoked := true)];
          }
        }
      }
      failed := !outcome.Durable?;
    }
  }

  // ----- use case

  function NewRow(userID: int, raw: string, now: int, cfg: Config): Row {
    Row(userID, HashToken(raw, cfg), now, now + cfg.refreshTTL, false)
  }

  function AfterIssue(rows: seq<Row>, userID: int, m: Mint, cfg: Config): seq<Row> {
    match m.random
    case None => rows
    case Some(bytes) => AfterCreate(rows, NewRow(userID, RawToken(bytes), m.now, cfg), m.save)
  }

  function Issued(userID: int, m: Mint, cfg: Config): Result<Tokens, AuthError> {
    if m.random.None? then Err(GenRefresh)
    else if !m.save.Durable? then Err(SaveRefresh)
    else
      var access := Jwt.IssueAccess(userID, m.now, cfg.accessTTL, cfg.secret, cfg.mac);
      Ok(Tokens(access, RawToken(m.random.value), userID))
  }

  /** The use case gets as far as revoking row `k`. */
  predicate Accepts(rows: seq<Row>, raw: string, found: Option<nat>, now: int) {
    raw != "" && found.Some? && found.value < |rows| &&
    rows[found.value].expiresAt >= now && !rows[found.value].revoked
  }

  function AfterRefresh(rows: seq<Row>, raw: string, found: Option<nat>, now: int,
                        revoke: Outcome, m: Mint, cfg: Config)
    : seq<Row>
  {
    if !Accepts(rows, raw, found, now) then rows
    else
      var revoked := AfterRevoke(rows, rows[found.value].hash, revoke);
      if revoke.Durable? then AfterIssue(revoked, rows[found.value].userID, m, cfg) else revoked
  }

  function Refreshed(rows: seq<Row>, raw: string, found: Option<nat>, now: int, revoke: Outcome, m: Mint, cfg: Config)
    : Result<Tokens, AuthError>
  {
    if !Accepts(rows, raw, found, now) then Err(InvalidCredentials)
    else if !revoke.Durable? then Err(RevokeFailed)
    else Issued(rows[found.value].userID, m, cfg)
  }

  /** The access token speaks for the user from the second it was issued until its lifetime is over, and
      at no other time. */
  ghost predicate SpeaksFor(access: string, userID: int, issued: int, cfg: Config) {
    forall now :: Jwt.ParseAccess(access, cfg.secret, cfg.mac, now)
                  == if issued / 1_000_000_000 <= now / 1_000_000_000 <= (issued + cfg.accessTTL) / 1_000_000_000
                     then Some(userID) else None
  }

  /** User ids and Unix times are 64-bit integers. */
  predicate Int64s(userID: int, issued: int, cfg: Config) {
    && -0x8000_0000_0000_0000 <= userID < 0x8000_0000_0000_0000
    && -0x8000_0000_0000_0000 <= issued / 1_000_000_000 < 0x8000_0000_0000_0000
    && -0x8000_0000_0000_0000 <= (issued + cfg.accessTTL) / 1_000_000_000 < 0x8000_0000_0000_0000
  }

  /** Tokens for the user: the access token speaks for it, the refresh token is the coded random bytes. */
  ghost predicate GoodTokens(t: Tokens, userID: int, m: Mint, cfg: Config) {
    && t.userID == userID && m.random.Some? && t.refresh == EncodeRaw(m.random.value)
    && (Int64s(userID, m.now, cfg) ==> SpeaksFor(t.access, userID, m.now, cfg))
  }

  /** A live row for the user is added that holds the digest of the new token, not the token, and
      expires after the refresh lifetime. */
  predicate RowAdded(before: seq<Row>, after: seq<Row>, userID: int, m: Mint, cfg: Config) {
    && m.random.Some? && before < after && |after| == |before| + 1
    && after[|before|] == Row(userID, EncodeRaw(cfg.sha(Jwt.Bytes(EncodeRaw(m.random.value)))),
                              m.now, m.now + cfg.refreshTTL, false)
  }

  lemma IssuedIsGood(userID: int, m: Mint, cfg: Config)
    ensures Issued(userID, m, cfg).Ok? <==> m.random.Some? && m.save == Durable
    ensures Issued(userID, m, cfg).Ok? ==> GoodTokens(Issued(userID, m, cfg).value, userID, m, cfg)
  {
    if Issued(userID, m, cfg).Ok? && Int64s(userID, m.now, cfg) {
      forall now {
        Jwt.AccessRoundTrip(userID, m.now, cfg.accessTTL, cfg.secret, cfg.mac, now);
      }
    }
  }

  lemma IssueAdds(rows: seq<Row>, userID: int, m: Mint, cfg: Config)
    ensures if m.random.None? || m.save == Failed then AfterIssue(rows, userID, m, cfg) == rows
            else RowAdded(rows, AfterIssue(rows, userID, m, cfg), userID, m, cfg)
  {
  }

  /** The table after a refresh: if the token was accepted, its revocation unless that was lost, and then
      the new row if the revocation was acknowledged, there were random bytes, and the insert got through. */
  predicate RefreshTable(before: seq<Row>, after: seq<Row>, accepted: bool, hash: string, userID: int,
                         revoke: Outcome, m: Mint, cfg: Config) {
    && |before| <= |after|
    && (forall i :: 0 <= i < |before| ==>
          Flagged(before[i], after[i], accepted && revoke != Failed && before[i].hash == hash))
    && if accepted && revoke == Durable && m.random.Some? && m.save != Failed
       then RowAdded(after[..|before|], after, userID, m, cfg)
       else |after| == |before|
  }

  lemma RefreshInFields(rows: seq<Row>, raw: string, found: Option<nat>, now: int, revoke: Outcome, m: Mint,
                        cfg: Config)
    requires found.Some? ==>
               found.value < |rows| && !rows[found.value].revoked && rows[found.value].hash == HashToken(raw, cfg)
    ensures var accepted := raw != "" && found.Some? && rows[found.value].expiresAt >= now;
            var userID := if found.Some? then rows[found.value].userID else 0;
            var res := Refreshed(rows, raw, found, now, revoke, m, cfg);
            && RefreshTable(rows, AfterRefresh(rows, raw, found, now, revoke, m, cfg), accepted, HashToken(raw, cfg),
                            userID, revoke, m, cfg)
            && (res.Ok? <==> accepted && revoke == Durable && m.random.Some? && m.save == Durable)
            && (res.Ok? ==> GoodTokens(res.value, userID, m, cfg))
            && (res == Err(InvalidCredentials) <==> !accepted)
  {
    if found.Some? {
      var row := rows[found.value];
      IssuedIsGood(row.userID, m, cfg);
      IssueAdds(AfterRevoke(rows, row.hash, revoke), row.userID, m, cfg);
    }
  }

  class Usecase {
    const rt: RefreshTokenRepo
    const cfg: Config

    constructor (rt: RefreshTokenRepo, cfg: Config)
      ensures this.rt == rt && this.cfg == cfg
    {
      this.rt := rt;
      this.cfg := cfg;
    }

    method IssueTokens(userID: int, m: Mint) returns (res: Result<Tokens, AuthError>)
      modifies rt
      ensures rt.rows == AfterIssue(old(rt.rows), userID, m, cfg)
      ensures res == Issued(userID, m, cfg)
      ensures res.Ok? <==> m.random.Some? && m.save == Durable
      ensures res.Ok? ==> GoodTokens(res.value, userID, m, cfg)
      ensures if m.random.None? || m.save == Failed then rt.rows == old(rt.rows)
              else RowAdded(old(rt.rows), rt.rows, userID, m, cfg)
    {
      IssuedIsGood(userID, m, cfg);
      IssueAdds(rt.rows, userID, m, cfg);
      var access := Jwt.IssueAccess(userID, m.now, cfg.accessTTL, cfg.secret, cfg.mac);
      if m.random.None? {
        return Err(GenRefresh);
      }
      var row := NewRow(userID, RawToken(m.random.value), m.now, cfg);
      ghost var before := rt.rows;
      var failed := rt.Create(row, m.save);
      StoredIsAppended(before, rt.rows, row, m.save);
      if failed {
        return Err(SaveRefresh);
      }
      return Ok(Tokens(access, RawToken(m.random.value), userID));
    }

    /** `account` is the user whose e-mail and password the caller gave, if there is one. */
    method SignIn(account: Option<int>, m: Mint) returns (res: Result<Tokens, AuthError>)
      modifies rt
      ensures account.None? ==> res == Err(InvalidCredentials) && rt.rows == old(rt.rows)
      ensures account.Some? ==> res == Issued(account.value, m, cfg)
                                && rt.rows == AfterIssue(old(rt.rows), account.value, m, cfg)
      ensures res.Ok? <==> account.Some? && m.random.Some? && m.save == Durable
      ensures res.Ok? ==> GoodTokens(res.value, account.value, m, cfg)
      ensures if account.None? || m.random.None? || m.save == Failed then rt.rows == old(rt.rows)
              else RowAdded(old(rt.rows), rt.rows, account.value, m, cfg)
    {
      if account.None? {
        return Err(InvalidCredentials);
      }
      res := IssueTokens(account.value, m);
    }

    method Refresh(raw: string, dbNow: int, queryFails: bool, now: int, revoke: Outcome, m: Mint)
      returns (res: Result<Tokens, AuthError>, ghost found: Option<nat>)
      modifies rt
      ensures Answers(old(rt.rows), HashToken(raw, cfg), dbNow, queryFails, found)
      ensures rt.rows == AfterRefresh(old(rt.rows), raw, found, now, revoke, m, cfg)
      ensures res == Refreshed(old(rt.rows), raw, found, now, revoke, m, cfg)
      ensures found.Some? ==>
                && !queryFails && found.value < |old(rt.rows)| && !old(rt.rows)[found.value].revoked
                && old(rt.rows)[found.value].hash == EncodeRaw(cfg.sha(Jwt.Bytes(raw)))
                && old(rt.rows)[found.value].expiresAt > dbNow
      ensures var accepted := raw != "" && found.Some? && old(rt.rows)[found.value].expiresAt >= now;
              var userID := if found.Some? then old(rt.rows)[found.value].userID else 0;
              && RefreshTable(old(rt.rows), rt.rows, accepted, EncodeRaw(cfg.sha(Jwt.Bytes(raw))), userID,
                              revoke, m, cfg)
              && (res.Ok? <==> accepted && revoke == Durable && m.random.Some? && m.save == Durable)
              && (res.Ok? ==> GoodTokens(res.value, userID, m, cfg))
              && (res == Err(InvalidCredentials) <==> !accepted)
    {
      var hash := HashToken(raw, cfg);
      var k := rt.FindValid(hash, dbNow, queryFails);
      found := k;
      RefreshInFields(rt.rows, raw, found, now, revoke, m, cfg);
      if raw == "" || k.None? {
        return Err(InvalidCredentials), found;
      }
      var rec := rt.rows[k.value];
      if rec.expiresAt < now || rec.revoked {
        return Err(InvalidCredentials), found;
      }
      var failed := rt.Revoke(rec.hash, revoke);
      if failed {
        return Err(RevokeFailed), found;
      }
      res := IssueTokens(rec.userID, m);
    }

    method Logout(raw: string, revoke: Outcome) returns (failed: bool)
      modifies rt
      ensures rt.rows == if raw == "" then old(rt.rows) else AfterRevoke(old(rt.rows), HashToken(raw, cfg), revoke)
      ensures failed == (raw != "" && !revoke.Durable?)
      ensures |rt.rows| == |old(rt.rows)|
      ensures forall i :: 0 <= i < |rt.rows| ==>
                Flagged(old(rt.rows)[i], rt.rows[i],
                        raw != "" && revoke != Failed && old(rt.rows)[i].hash == EncodeRaw(cfg.sha(Jwt.Bytes(raw))))
    {
      if raw == "" {
        return false;
      }
      failed := rt.Revoke(HashToken(raw, cfg), revoke);
    }
  }

  // ----- runs

  /** One call, with everything it meets. */
  datatype Call =
    | SignIn(userID: int, m: Mint)
    | Refresh(raw: string, dbNow: int, queryFails: bool, found: Option<nat>, now: int, revoke: Outcome, m: Mint)
    | Logout(raw: string, revoke: Outcome)

  /** The table, and for every row the row it was exchanged for. */
  datatype State = State(rows: seq<Row>, parent: seq<Option<nat>>)

  const START := State([], [])

  function RowsAfter(rows: seq<Row>, c: Call, cfg: Config): seq<Row> {
    match c
    case SignIn(userID, m) => AfterIssue(rows, userID, m, cfg)
    case Refresh(raw, _, _, found, now, revoke, m) => AfterRefresh(rows, raw, found, now, revoke, m, cfg)
    case Logout(raw, revoke) => if raw == "" then rows else AfterRevoke(rows, HashToken(raw, cfg), revoke)
  }

  function Apply(s: State, c: Call, cfg: Config): State {
    var rows := RowsAfter(s.rows, c, cfg);
    State(rows, if |rows| == |s.rows| then s.parent else s.parent + [if c.Refresh? then c.found else None])
  }

  /** New tokens are fresh: no row has their hash. */
  ghost predicate FreshIn(rows: seq<Row>, m: Mint, cfg: Config) {
    m.random.Some? ==> forall i :: 0 <= i < |rows| ==> rows[i].hash != HashToken(RawToken(m.random.value), cfg)
  }

  ghost predicate Enabled(s: State, c: Call, cfg: Config) {
    match c
    case SignIn(_, m) => FreshIn(s.rows, m, cfg)
    case Refresh(raw, dbNow, queryFails, found, _, _, m) =>
      FreshIn(s.rows, m, cfg) && Answers(s.rows, HashToken(raw, cfg), dbNow, queryFails, found)
    case Logout(_, _) => true
  }

  /** A run: the calls one after another, and the states before, between and after them. */
  ghost predicate Legal(calls: seq<Call>, states: seq<State>, cfg: Config) {
    |states| == |calls| + 1 && states[0] == START &&
    forall i :: 0 <= i < |calls| ==> Follows(states[i], calls[i], states[i + 1], cfg)
  }

  ghost predicate Follows(s: State, c: Call, t: State, cfg: Config) {
    Enabled(s, c, cfg) && t == Apply(s, c, cfg)
  }

  /** The call is a refresh that hands out new tokens. */
  predicate Succeeds(s: State, c: Call, cfg: Config) {
    c.Refresh? && Refreshed(s.rows, c.raw, c.found, c.now, c.revoke, c.m, cfg).Ok?
  }

  // ----- what every run keeps

  ghost predicate DistinctHashes(rows: seq<Row>) {
    forall i, j :: 0 <= i < j < |rows| ==> rows[i].hash != rows[j].hash
  }

  /** A row that was exchanged is revoked and belongs to the same user. */
  ghost predicate Exchanged(s: State) {
    |s.parent| == |s.rows| &&
    forall i :: 0 <= i < |s.parent| && s.parent[i].Some? ==>
      s.parent[i].value < i && s.rows[s.parent[i].value].revoked
      && s.rows[s.parent[i].value].userID == s.rows[i].userID
  }

  /** No row is exchanged twice. */
  ghost predicate OneChild(parent: seq<Option<nat>>) {
    forall i, j :: 0 <= i < j < |parent| && parent[i].Some? ==> parent[i] != parent[j]
  }

  ghost predicate Inv(s: State) {
    DistinctHashes(s.rows) && Exchanged(s) && OneChild(s.parent)
  }

  /** Rows stay, keep all but the flag, and the flag only goes up. */
  ghost predicate Extends(a: State, b: State) {
    |a.rows| <= |b.rows| && |a.parent| <= |b.parent| && b.parent[..|a.parent|] == a.parent &&
    forall i :: 0 <= i < |a.rows| ==>
      b.rows[i] == a.rows[i].(revoked := b.rows[i].revoked) && (a.rows[i].revoked ==> b.rows[i].revoked)
  }

  lemma ChildAppended(parent: seq<Option<nat>>, p: Option<nat>)
    requires OneChild(parent) && (p.Some? ==> p !in parent)
    ensures OneChild(parent + [p])
  {
  }

  lemma HashAppended(rows: seq<Row>, r: Row)
    requires DistinctHashes(rows) && forall i :: 0 <= i < |rows| ==> rows[i].hash != r.hash
    ensures DistinctHashes(rows + [r])
  {
  }

  lemma RowAppended(s: State, r: Row, p: Option<nat>)
    requires Inv(s) && forall i :: 0 <= i < |s.rows| ==> s.rows[i].hash != r.hash
    requires p.Some? ==> p.value < |s.rows| && s.rows[p.value].revoked && s.rows[p.value].userID == r.userID
    requires p.Some? ==> p !in s.parent
    ensures var t := State(s.rows + [r], s.parent + [p]); Inv(t) && Extends(s, t)
  {
    HashAppended(s.rows, r);
    ChildAppended(s.parent, p);
  }

  lemma IssueKeeps(s: State, userID: int, parent: Option<nat>, m: Mint, cfg: Config)
    requires Inv(s) && FreshIn(s.rows, m, cfg)
    requires parent.Some? ==> parent.value < |s.rows| && s.rows[parent.value].revoked
                              && s.rows[parent.value].userID == userID && parent !in s.parent
    ensures var rows := AfterIssue(s.rows, userID, m, cfg);
            var t := State(rows, if |rows| == |s.rows| then s.parent else s.parent + [parent]);
            Inv(t) && Extends(s, t)
  {
    if m.random.Some? && !m.save.Failed? {
      RowAppended(s, NewRow(userID, RawToken(m.random.value), m.now, cfg), parent);
    }
  }

  lemma RevokeKeeps(s: State, hash: string, outcome: Outcome)
    requires Inv(s)
    ensures var t := State(AfterRevoke(s.rows, hash, outcome), s.parent); Inv(t) && Extends(s, t)
  {
  }

  lemma StepKeeps(s: State, c: Call, cfg: Config)
    requires Inv(s) && Enabled(s, c, cfg)
    ensures Inv(Apply(s, c, cfg)) && Extends(s, Apply(s, c, cfg))
  {
    match c
    case SignIn(userID, m) => IssueKeeps(s, userID, None, m, cfg);
    case Logout(raw, revoke) => RevokeKeeps(s, HashToken(raw, cfg), revoke);
    case Refresh(raw, _, _, found, now, revoke, m) =>
      if Accepts(s.rows, raw, found, now) {
        var row := s.rows[found.value];
        RevokeKeeps(s, row.hash, revoke);
        if revoke.Durable? {
          IssueKeeps(State(Revoked(s.rows, row.hash), s.parent), row.userID, found, m, cfg);
        }
      }
  }

  lemma RunInv(calls: seq<Call>, states: seq<State>, cfg: Config, n: nat)
    requires Legal(calls, states, cfg) && n <= |calls|
    ensures Inv(states[n])
  {
    ghost var inv := (s: State) => Inv(s);
    forall k | 0 <= k < n && inv(states[k]) ensures inv(states[k + 1]) {
      assert Follows(states[k], calls[k], states[k + 1], cfg);
      StepKeeps(states[k], calls[k], cfg);
    }
    Persists(inv, states, 0, n);
  }

  lemma ExtendsTransitive(a: State, b: State, c: State)
    requires Extends(a, b) && Extends(b, c)
    ensures Extends(a, c)
  {
    assert a.parent == b.parent[..|a.parent|] == c.parent[..|b.parent|][..|a.parent|];
  }

  lemma CallExtends(calls: seq<Call>, states: seq<State>, cfg: Config, k: nat)
    requires Legal(calls, states, cfg) && k < |calls|
    ensures Extends(states[k], states[k + 1])
  {
    RunInv(calls, states, cfg, k);
    assert Follows(states[k], calls[k], states[k + 1], cfg);
    StepKeeps(states[k], calls[k], cfg);
  }

  lemma RunExtends(calls: seq<Call>, states: seq<State>, cfg: Config, i: nat, j: nat)
    requires Legal(calls, states, cfg) && i <= j <= |calls|
    ensures Extends(states[i], states[j])
  {
    ghost var later := (s: State) => Extends(states[i], s);
    forall k | i <= k < j && later(states[k]) ensures later(states[k + 1]) {
      CallExtends(calls, states, cfg, k);
      ExtendsTransitive(states[i], states[k], states[k + 1]);
    }
    Persists(later, states, i, j);
  }

  // ----- a token is good for one exchange

  ghost predicate Stores(rows: seq<Row>, hash: string) {
    exists k :: 0 <= k < |rows| && rows[k].hash == hash
  }

  /** Some row of this hash is revoked. */
  ghost predicate IsRevoked(rows: seq<Row>, hash: string) {
    exists k :: 0 <= k < |rows| && rows[k].hash == hash && rows[k].revoked
  }

  lemma RevokedFails(s: State, c: Call, cfg: Config)
    requires Inv(s) && c.Refresh? && Enabled(s, c, cfg) && IsRevoked(s.rows, HashToken(c.raw, cfg))
    ensures !Succeeds(s, c, cfg) && Apply(s, c, cfg) == s
  {
  }

  /** Once a token is revoked no later refresh with it succeeds, or changes anything. */
  lemma NeverAfterRevocation(calls: seq<Call>, states: seq<State>, cfg: Config, i: nat, j: nat)
    requires Legal(calls, states, cfg) && i <= j < |calls| && calls[j].Refresh?
    requires IsRevoked(states[i].rows, HashToken(calls[j].raw, cfg))
    ensures !Succeeds(states[j], calls[j], cfg)
    ensures states[j + 1] == states[j]
  {
    RunInv(calls, states, cfg, j);
    RunExtends(calls, states, cfg, i, j);
    StillRevoked(states[i], states[j], HashToken(calls[j].raw, cfg));
    assert Follows(states[j], calls[j], states[j + 1], cfg);
    RevokedFails(states[j], calls[j], cfg);
  }

  lemma StillRevoked(a: State, b: State, hash: string)
    requires Extends(a, b) && IsRevoked(a.rows, hash)
    ensures IsRevoked(b.rows, hash)
  {
    var k :| 0 <= k < |a.rows| && a.rows[k].hash == hash && a.rows[k].revoked;
    assert b.rows[k].hash == hash && b.rows[k].revoked;
  }

  /** A refresh that succeeds, or merely reaches the database with its revocation, spends the token;
      so does a logout. */
  lemma Spends(s: State, c: Call, cfg: Config)
    requires Inv(s) && Enabled(s, c, cfg)
    ensures Succeeds(s, c, cfg) ==> IsRevoked(Apply(s, c, cfg).rows, HashToken(c.raw, cfg))
    ensures c.Refresh? && Accepts(s.rows, c.raw, c.found, c.now) && !c.revoke.Failed?
            ==> IsRevoked(Apply(s, c, cfg).rows, HashToken(c.raw, cfg))
    ensures c.Logout? && c.raw != "" && !c.revoke.Failed? && Stores(s.rows, HashToken(c.raw, cfg))
            ==> IsRevoked(Apply(s, c, cfg).rows, HashToken(c.raw, cfg))
  {
    if c.Refresh? && Accepts(s.rows, c.raw, c.found, c.now) && !c.revoke.Failed? {
      var t := Apply(s, c, cfg).rows;
      assert t[c.found.value] == Revoked(s.rows, s.rows[c.found.value].hash)[c.found.value];
    }
    if c.Logout? && c.raw != "" && !c.revoke.Failed? && Stores(s.rows, HashToken(c.raw, cfg)) {
      var k :| 0 <= k < |s.rows| && s.rows[k].hash == HashToken(c.raw, cfg);
      assert Apply(s, c, cfg).rows[k].revoked;
    }
  }

  /** Each raw token makes `Refresh` succeed at most once in any run. */
  lemma AtMostOneExchange(calls: seq<Call>, states: seq<State>, cfg: Config, i: nat, j: nat)
    requires Legal(calls, states, cfg) && i < j < |calls| && calls[i].Refresh? && calls[j].Refresh?
    requires HashToken(calls[i].raw, cfg) == HashToken(calls[j].raw, cfg)
    requires Succeeds(states[i], calls[i], cfg)
    ensures !Succeeds(states[j], calls[j], cfg)
  {
    RunInv(calls, states, cfg, i);
    assert Follows(states[i], calls[i], states[i + 1], cfg);
    Spends(states[i], calls[i], cfg);
    NeverAfterRevocation(calls, states, cfg, i + 1, j);
  }

  /** A live token that nothing fails is exchanged, whatever happened before, for a live token of the
      same user. */
  lemma LiveTokenWorks(s: State, c: Call, cfg: Config, k: nat)
    requires Inv(s) && Enabled(s, c, cfg) && c.Refresh? && c.raw != "" && k < |s.rows|
    requires Valid(s.rows[k], HashToken(c.raw, cfg), c.dbNow) && c.now <= s.rows[k].expiresAt
    requires !c.queryFails && c.revoke.Durable? && c.m.random.Some? && c.m.save.Durable?
    ensures Succeeds(s, c, cfg)
    ensures Refreshed(s.rows, c.raw, c.found, c.now, c.revoke, c.m, cfg).value.userID == s.rows[k].userID
    ensures var t := Apply(s, c, cfg);
            |t.rows| == |s.rows| + 1 && t.parent[|s.rows|] == Some(k) && t.rows[k].revoked
            && t.rows[|s.rows|] == NewRow(s.rows[k].userID, RawToken(c.m.random.value), c.m.now, cfg)
  {
    assert c.found == Some(k);
  }

  // ----- families

  /** The token of the sign-in that row `i` descends from. */
  function Root(parent: seq<Option<nat>>, i: nat): nat
    decreases i
  {
    if i < |parent| && parent[i].Some? && parent[i].value < i then Root(parent, parent[i].value) else i
  }

  /** How many exchanges lie between that sign-in and row `i`. */
  function Depth(parent: seq<Option<nat>>, i: nat): nat
    decreases i
  {
    if i < |parent| && parent[i].Some? && parent[i].value < i then Depth(parent, parent[i].value) + 1 else 0
  }

  ghost predicate SameFamily(parent: seq<Option<nat>>, i: nat, j: nat) {
    Root(parent, i) == Root(parent, j)
  }

  /** A family is a path: it has at most one token at each depth. */
  lemma {:induction false} FamilyIsPath(s: State, i: nat, j: nat)
    requires Inv(s) && i < |s.rows| && j < |s.rows|
    requires SameFamily(s.parent, i, j) && Depth(s.parent, i) == Depth(s.parent, j)
    ensures i == j
    decreases i
  {
    if s.parent[i].Some? {
      FamilyIsPath(s, s.parent[i].value, s.parent[j].value);
    }
  }

  /** A token that is not the last of its family has been exchanged. */
  lemma {:induction false} InnerIsRevoked(s: State, i: nat, j: nat)
    requires Inv(s) && i < |s.rows| && j < |s.rows|
    requires SameFamily(s.parent, i, j) && Depth(s.parent, i) < Depth(s.parent, j)
    ensures s.rows[i].revoked && i in Ancestors(s.parent, j)
    decreases j
  {
    var p := s.parent[j].value;
    if Depth(s.parent, p) == Depth(s.parent, i) {
      FamilyIsPath(s, i, p);
    } else {
      InnerIsRevoked(s, i, p);
    }
  }

  /** The tokens that were exchanged, one for the next, to get row `i`. */
  function Ancestors(parent: seq<Option<nat>>, i: nat): set<nat>
    decreases i
  {
    if i < |parent| && parent[i].Some? && parent[i].value < i
    then Ancestors(parent, parent[i].value) + {parent[i].value}
    else {}
  }

  lemma {:induction false} SameUser(s: State, i: nat)
    requires Inv(s) && i < |s.rows|
    ensures Root(s.parent, i) < |s.rows| && s.rows[Root(s.parent, i)].userID == s.rows[i].userID
    decreases i
  {
    if s.parent[i].Some? {
      SameUser(s, s.parent[i].value);
    }
  }

  /** In every reachable state two tokens that descend from one sign-in belong to the same user, one
      of them was exchanged, directly or through others, to get the other, and at most one of them is
      not revoked. */
  lemma Families(calls: seq<Call>, states: seq<State>, cfg: Config, n: nat, i: nat, j: nat)
    requires Legal(calls, states, cfg) && n <= |calls|
    requires i < |states[n].rows| && j < |states[n].rows| && i != j
    requires SameFamily(states[n].parent, i, j)
    ensures var s := states[n];
            s.rows[i].userID == s.rows[j].userID
            && (s.rows[i].revoked || s.rows[j].revoked)
            && (i in Ancestors(s.parent, j) || j in Ancestors(s.parent, i))
  {
    RunInv(calls, states, cfg, n);
    var s := states[n];
    SameUser(s, i);
    SameUser(s, j);
    if Depth(s.parent, i) < Depth(s.parent, j) {
      InnerIsRevoked(s, i, j);
    } else if Depth(s.parent, j) < Depth(s.parent, i) {
      InnerIsRevoked(s, j, i);
    } else {
      FamilyIsPath(s, i, j);
    }
  }

  /** Every token of the family of row `r` is revoked. */
  ghost predicate Dead(s: State, r: nat) {
    forall i :: 0 <= i < |s.rows| && Root(s.parent, i) == r ==> s.rows[i].revoked
  }

  lemma {:induction false} RootOfPrefix(parent: seq<Option<nat>>, longer: seq<Option<nat>>, i: nat)
    requires i < |parent| <= |longer| && longer[..|parent|] == parent
    ensures Root(longer, i) == Root(parent, i)
    decreases i
  {
    assert longer[i] == longer[..|parent|][i];
    if parent[i].Some? && parent[i].value < i {
      RootOfPrefix(parent, longer, parent[i].value);
    }
  }

  lemma DeadStays(s: State, c: Call, cfg: Config, r: nat)
    requires Inv(s) && Enabled(s, c, cfg) && r < |s.rows| && Dead(s, r)
    ensures Dead(Apply(s, c, cfg), r)
    ensures |Apply(s, c, cfg).rows| > |s.rows| ==> Root(Apply(s, c, cfg).parent, |s.rows|) != r
  {
    StepKeeps(s, c, cfg);
    var t := Apply(s, c, cfg);
    forall i | 0 <= i < |t.rows| && Root(t.parent, i) == r ensures i < |s.rows| && t.rows[i].revoked {
      if i < |s.rows| {
        RootOfPrefix(s.parent, t.parent, i);
      } else if c.Refresh? {
        RootOfPrefix(s.parent, t.parent, c.found.value);
      }
    }
  }

  lemma CallKeepsDead(calls: seq<Call>, states: seq<State>, cfg: Config, k: nat, r: nat)
    requires Legal(calls, states, cfg) && k < |calls|
    requires r < |states[k].rows| && Dead(states[k], r)
    ensures r < |states[k + 1].rows| && Dead(states[k + 1], r)
  {
    RunInv(calls, states, cfg, k);
    CallExtends(calls, states, cfg, k);
    assert Follows(states[k], calls[k], states[k + 1], cfg);
    DeadStays(states[k], calls[k], cfg, r);
  }

  /** In no run does a family without a live token get one again. */
  lemma DeadForever(calls: seq<Call>, states: seq<State>, cfg: Config, i: nat, j: nat, r: nat)
    requires Legal(calls, states, cfg) && i <= j <= |calls|
    requires r < |states[i].rows| && Dead(states[i], r)
    ensures r < |states[j].rows| && Dead(states[j], r)
  {
    ghost var dead := (s: State) => r < |s.rows| && Dead(s, r);
    forall k | i <= k < j && dead(states[k]) ensures dead(states[k + 1]) {
      CallKeepsDead(calls, states, cfg, k, r);
    }
    Persists(dead, states, i, j);
  }

  /** The token a refresh accepts is the only live one of its family. */
  lemma OnlyLiveOne(s: State, k: nat, i: nat)
    requires Inv(s) && k < |s.rows| && i < |s.rows| && SameFamily(s.parent, i, k)
    requires !s.rows[k].revoked
    ensures i == k || s.rows[i].revoked
  {
    if Depth(s.parent, i) < Depth(s.parent, k) {
      InnerIsRevoked(s, i, k);
    } else if Depth(s.parent, k) < Depth(s.parent, i) {
      InnerIsRevoked(s, k, i);
    } else {
      FamilyIsPath(s, i, k);
    }
  }

  lemma RootInRange(parent: seq<Option<nat>>, i: nat)
    ensures Root(parent, i) <= i
    decreases i
  {
  }

  /** A refresh that was accepted leaves the table without a live row of its family exactly when the
      revocation reached it and the replacement did not.  (Whether the holder can go on is another
      question: see HolderCanGoOn.) */
  lemma LostReplacement(s: State, c: Call, cfg: Config)
    requires Inv(s) && Enabled(s, c, cfg) && c.Refresh? && Accepts(s.rows, c.raw, c.found, c.now)
    ensures Dead(Apply(s, c, cfg), Root(s.parent, c.found.value))
            <==> !c.revoke.Failed? && (!c.revoke.Durable? || c.m.random.None? || c.m.save.Failed?)
  {
    var k, t := c.found.value, Apply(s, c, cfg);
    var r := Root(s.parent, k);
    if |t.rows| > |s.rows| {
      RootOfPrefix(s.parent, t.parent, k);
      assert Root(t.parent, |s.rows|) == r && !t.rows[|s.rows|].revoked;
    } else if c.revoke.Failed? {
      assert t == s && !t.rows[k].revoked;
    } else {
      forall i | 0 <= i < |t.rows| && Root(t.parent, i) == r ensures t.rows[i].revoked {
        OnlyLiveOne(s, k, i);
      }
    }
  }

  /** After such a refresh the family has no live row in any later state. */
  lemma LostReplacementEndsSession(calls: seq<Call>, states: seq<State>, cfg: Config, i: nat, j: nat)
    requires Legal(calls, states, cfg) && i < j <= |calls| && calls[i].Refresh?
    requires Accepts(states[i].rows, calls[i].raw, calls[i].found, calls[i].now)
    requires !calls[i].revoke.Failed?
    requires !calls[i].revoke.Durable? || calls[i].m.random.None? || calls[i].m.save.Failed?
    ensures Dead(states[j], Root(states[i].parent, calls[i].found.value))
  {
    var s, c := states[i], calls[i];
    RunInv(calls, states, cfg, i);
    assert Follows(s, c, states[i + 1], cfg);
    RootInRange(s.parent, c.found.value);
    LostReplacement(s, c, cfg);
    CallExtends(calls, states, cfg, i);
    DeadForever(calls, states, cfg, i + 1, j, Root(s.parent, c.found.value));
  }

  /** The table would still accept a token of this hash. */
  ghost predicate LiveFor(rows: seq<Row>, hash: string) {
    exists k :: 0 <= k < |rows| && rows[k].hash == hash && !rows[k].revoked
  }

  /** The caller of a refresh is left with a live token: the one it presented or the one it got. */
  ghost predicate CanGoOn(s: State, c: Call, cfg: Config)
    requires c.Refresh?
  {
    var rows, res := Apply(s, c, cfg).rows, Refreshed(s.rows, c.raw, c.found, c.now, c.revoke, c.m, cfg);
    LiveFor(rows, HashToken(c.raw, cfg)) || (res.Ok? && LiveFor(rows, HashToken(res.value.refresh, cfg)))
  }

  /** Nothing happened to the presented token, or everything went well. */
  predicate Unharmed(c: Call)
    requires c.Refresh?
  {
    c.revoke.Failed? || (c.revoke.Durable? && c.m.random.Some? && c.m.save.Durable?)
  }

  /** An accepted refresh leaves its caller with a live token exactly when the revocation was lost, or
      revocation and replacement were both acknowledged.  Every other failure ends the session that
      the refresh was to prolong. */
  lemma HolderCanGoOn(s: State, c: Call, cfg: Config)
    requires Inv(s) && Enabled(s, c, cfg) && c.Refresh? && Accepts(s.rows, c.raw, c.found, c.now)
    ensures CanGoOn(s, c, cfg) <==> Unharmed(c)
  {
    var k, t := c.found.value, Apply(s, c, cfg);
    if c.revoke.Failed? {
      assert t.rows[k].hash == HashToken(c.raw, cfg) && !t.rows[k].revoked;
    } else if Unharmed(c) {
      assert t.rows[|s.rows|] == NewRow(s.rows[k].userID, RawToken(c.m.random.value), c.m.now, cfg);
    }
  }

  /** One such failure leaves a live row behind: the insert was carried out but reported as failed, so
      that nobody ever gets the token of the row. */
  lemma OrphanedReplacement(s: State, c: Call, cfg: Config)
    requires Inv(s) && Enabled(s, c, cfg) && c.Refresh? && Accepts(s.rows, c.raw, c.found, c.now)
    requires c.revoke.Durable? && c.m.random.Some? && c.m.save.Unknown?
    ensures !CanGoOn(s, c, cfg) && !Dead(Apply(s, c, cfg), Root(s.parent, c.found.value))
    ensures Refreshed(s.rows, c.raw, c.found, c.now, c.revoke, c.m, cfg) == Err(SaveRefresh)
  {
    HolderCanGoOn(s, c, cfg);
    LostReplacement(s, c, cfg);
  }

  /** Over any serial run a caller whose refresh was harmed has been handed no token, and the one it
      presented is never accepted again. */
  lemma HolderShutOut(calls: seq<Call>, states: seq<State>, cfg: Config, i: nat, j: nat)
    requires Legal(calls, states, cfg) && i < j < |calls| && calls[i].Refresh? && calls[j].Refresh?
    requires Accepts(states[i].rows, calls[i].raw, calls[i].found, calls[i].now) && !Unharmed(calls[i])
    requires HashToken(calls[i].raw, cfg) == HashToken(calls[j].raw, cfg)
    ensures !Succeeds(states[i], calls[i], cfg) && !Succeeds(states[j], calls[j], cfg)
  {
    RunInv(calls, states, cfg, i);
    assert Follows(states[i], calls[i], states[i + 1], cfg);
    Spends(states[i], calls[i], cfg);
    NeverAfterRevocation(calls, states, cfg, i + 1, j);
  }

  // ----- two refreshes at once

  /** How the statements of two refreshes that both have read the token's row mix: one goes through
      before the other goes on, or both revoke before either stores its new row. */
  datatype Mix = OneByOne | StoreInOrder | StoreReversed

  /** A new row is stored by a refresh whose revocation was acknowledged. */
  function Replaced(rows: seq<Row>, userID: int, revoke: Outcome, m: Mint, cfg: Config): seq<Row> {
    if revoke.Durable? then AfterIssue(rows, userID, m, cfg) else rows
  }

  function AfterBoth(rows: seq<Row>, row: Row, mix: Mix, revoke1: Outcome, m1: Mint, revoke2: Outcome, m2: Mint,
                     cfg: Config): seq<Row> {
    match mix
    case OneByOne =>
      var first := Replaced(AfterRevoke(rows, row.hash, revoke1), row.userID, revoke1, m1, cfg);
      Replaced(AfterRevoke(first, row.hash, revoke2), row.userID, revoke2, m2, cfg)
    case StoreInOrder =>
      var revoked := AfterRevoke(AfterRevoke(rows, row.hash, revoke1), row.hash, revoke2);
      Replaced(Replaced(revoked, row.userID, revoke1, m1, cfg), row.userID, revoke2, m2, cfg)
    case StoreReversed =>
      var revoked := AfterRevoke(AfterRevoke(rows, row.hash, revoke1), row.hash, revoke2);
      Replaced(Replaced(revoked, row.userID, revoke2, m2, cfg), row.userID, revoke1, m1, cfg)
  }

  /** Two live rows of one user came to the table. */
  predicate Forked(before: seq<Row>, after: seq<Row>) {
    |after| == |before| + 2 && !after[|before|].revoked && !after[|before| + 1].revoked
    && after[|before|].userID == after[|before| + 1].userID
  }

  /** The revocation is acknowledged and the new row gets stored. */
  predicate Lands(revoke: Outcome, m: Mint) {
    revoke.Durable? && m.random.Some? && !m.save.Failed?
  }

  /** Two refreshes with one token that both look it up before either revokes it leave two live tokens
      of that user, however the rest of them mixes, exactly when neither is stopped by a failure of
      its own: the revocation does not tell the second that it came late. */
  lemma OverlappingRefreshesFork(rows: seq<Row>, raw: string, k: nat, dbNow: int, now: int, mix: Mix,
                                 revoke1: Outcome, m1: Mint, revoke2: Outcome, m2: Mint, cfg: Config)
    requires raw != "" && k < |rows| && Valid(rows[k], HashToken(raw, cfg), dbNow) && now <= rows[k].expiresAt
    requires FreshIn(rows, m1, cfg) && FreshIn(rows, m2, cfg)
    ensures Forked(rows, AfterBoth(rows, rows[k], mix, revoke1, m1, revoke2, m2, cfg))
            <==> Lands(revoke1, m1) && Lands(revoke2, m2)
    ensures AfterRefresh(rows, raw, Some(k), now, revoke1, m1, cfg)
            == Replaced(AfterRevoke(rows, rows[k].hash, revoke1), rows[k].userID, revoke1, m1, cfg)
  {
    if Lands(revoke1, m1) && Lands(revoke2, m2) {
      var n, after := |rows|, AfterBoth(rows, rows[k], mix, revoke1, m1, revoke2, m2, cfg);
      var a, b := NewRow(rows[k].userID, RawToken(m1.random.value), m1.now, cfg),
                  NewRow(rows[k].userID, RawToken(m2.random.value), m2.now, cfg);
      if mix.StoreReversed? {
        assert after[n] == b && after[n + 1] == a;
      } else {
        assert after[n] == a && after[n + 1] == b;
      }
    }
  }
}
