/** The token table and one request handler of the gateway. Between any two statements the handler is
    interrupted by arbitrary steps of the other handlers, and each of its own is a step of the machine. */
module AuthService {
  import opened Common
  import opened RefreshTokens

  const SEVEN_DAYS_MS: int := 7 * 24 * 60 * 60 * 1000

  datatype AuthError = InvalidRefreshToken | RefreshTokenExpired | TokenReuseDetected

  /** What a verified refresh JWT carries. */
  datatype RefreshTokenPayload = RefreshTokenPayload(tokenId: TokenId, familyId: FamilyId)

  class RefreshTokenTable {
    var rows: Table

    constructor ()
      ensures rows == map[]
    {
      rows := map[];
    }

    method FindByPk(id: TokenId) returns (found: Option<Row>)
      ensures found == if id in rows then Some(rows[id]) else None
    {
      if id in rows {
        return Some(rows[id]);
      }
      return None;
    }

    method Create(id: TokenId, row: Row)
      requires id !in rows
      modifies this
      ensures rows == old(rows)[id := row]
    {
      rows := rows[id := row];
    }

    /** UPDATE ... WHERE id AND revokedAt IS NULL; the answer is the number of rows it changed. */
    method RevokeIfLive(id: TokenId, revokedAt: int) returns (affectedCount: nat)
      modifies this
      ensures affectedCount == if id in old(rows) && old(rows)[id].Alive() then 1 else 0
      ensures rows == if affectedCount == 1 then old(rows)[id := old(rows)[id].(revokedAt := Some(revokedAt))]
          else old(rows)
    {
      if id in rows && rows[id].revokedAt.None? {
        rows := rows[id := rows[id].(revokedAt := Some(revokedAt))];
        return 1;
      }
      return 0;
    }

    /** UPDATE ... WHERE familyId */
    method RevokeFamily(familyId: FamilyId, revokedAt: int)
      modifies this
      ensures rows == FamilyRevoked(old(rows), familyId, revokedAt) && rows.Keys == old(rows).Keys
      ensures forall id :: id in rows && rows[id].family == familyId ==>
                rows[id] == old(rows)[id].(revokedAt := Some(revokedAt))
      ensures forall id :: id in rows && rows[id].family != familyId ==> rows[id] == old(rows)[id]
    {
      rows := map id | id in rows ::
        if rows[id].family == familyId then rows[id].(revokedAt := Some(revokedAt)) else rows[id];
    }
  }

  class AuthService {
    const me: nat
    const refreshTokens: RefreshTokenTable
    /** Ids no row uses, a different one for each draw. */
    const randomUUID: (Table, nat) -> string
    /** What everybody else does at the i-th interruption; arbitrary. */
    const others: nat -> seq<Event>
    var interruptions: nat
    var clock: int
    var world: State
    ghost var trace: seq<Event>
    ghost const born: int

    constructor (me: nat, refreshTokens: RefreshTokenTable, clock: int, randomUUID: (Table, nat) -> string,
        others: nat -> seq<Event>)
      requires refreshTokens.rows == map[]
      requires forall rows :: DrawsNew(rows, randomUUID)
      ensures Valid() && this.me == me && this.refreshTokens == refreshTokens && trace == [] && world.PcOf(me).Idle?
    {
      this.me, this.refreshTokens, this.randomUUID, this.others := me, refreshTokens, randomUUID, others;
      this.interruptions, this.clock, this.world := 0, clock, Start(clock);
      this.trace, this.born := [], clock;
    }

    ghost predicate Valid()
      reads this, refreshTokens
    {
      && Replay(Start(born), trace) == Some(world)
      && clock == world.now && refreshTokens.rows == world.rows
      && forall rows :: DrawsNew(rows, randomUUID)
    }

    /** A step of the clock or of another handler. */
    predicate Foreign(e: Event) {
      match e
      case Present(c, _) => c != me
      case Judge(c) => c != me
      case RevokeOwn(c) => c != me
      case RevokeFamily(c) => c != me
      case Create(c, _, _) => c != me
      case Crash(c) => c != me
      case _ => true
    }

    method Note(e: Event)
      requires Replay(Start(born), trace) == Some(world) && Step(world, e).Some?
      modifies this`world, this`trace
      ensures Some(world) == Step(old(world), e)
      ensures trace == old(trace) + [e] && Replay(Start(born), trace) == Some(world)
    {
      ReplayAppend(Start(born), trace, e);
      world := Step(world, e).value;
      trace := trace + [e];
    }

    /** What others leave alone: this handler's place, and every row except that it may be revoked. */
    ghost predicate Kept(before: State, after: State) {
      after.PcOf(me) == before.PcOf(me) && RowsKept(before, after)
    }

    lemma ForeignKeeps(s: State, e: Event)
      requires Foreign(e) && Step(s, e).Some?
      ensures Kept(s, Step(s, e).value)
    {
    }

    /** Any number of steps of others. */
    method Interrupted()
      requires Valid()
      modifies this, refreshTokens
      ensures Valid() && old(trace) <= trace && Kept(old(world), world)
      ensures interruptions == old(interruptions) + 1
      ensures others(old(interruptions)) == [] ==> world == old(world)
      ensures Inv(world)
    {
      var events := others(interruptions);
      interruptions := interruptions + 1;
      for i := 0 to |events|
        invariant Valid() && old(trace) <= trace && Kept(old(world), world)
        invariant interruptions == old(interruptions) + 1
        invariant i == 0 ==> world == old(world)
      {
        if Foreign(events[i]) && Step(world, events[i]).Some? {
          ForeignKeeps(world, events[i]);
          Note(events[i]);
          clock, refreshTokens.rows := world.now, world.rows;
        }
      }
      ReplayKeepsInv(Start(born), trace);
    }

    /** With no family given, the first token of a new one; with one given, the successor of `parent`,
        which this handler has just revoked. */
    method GenerateRefreshToken(familyId: Option<FamilyId>, parent: Option<TokenId>) returns (tokenId: TokenId)
      requires Valid()
      requires match (familyId, parent)
               case (None, None) => world.PcOf(me).Idle?
               case (Some(family), Some(token)) => world.PcOf(me) == Rotating(token, family)
               case _ => false
      modifies this, refreshTokens
      ensures Valid() && old(trace) <= trace && world.PcOf(me).Idle? && RowsKept(old(world), world)
      ensures tokenId in world.rows && tokenId !in old(world).rows
      ensures world.rows[tokenId].revokedAt.None? && world.rows[tokenId].from == parent
      ensures familyId.Some? ==> world.rows[tokenId].family == familyId.value
      ensures familyId.None? ==>
                forall t :: t in old(world).rows ==> old(world).rows[t].family != world.rows[tokenId].family
      ensures old(clock) + 604_800_000 <= world.rows[tokenId].expiresAt <= clock + 604_800_000
      ensures OnlyLive(world.rows, tokenId)
    {
      var expiresAt := clock + SEVEN_DAYS_MS;
      Interrupted();
      tokenId := randomUUID(refreshTokens.rows, 0);
      var family := if familyId.Some? then familyId.value else randomUUID(refreshTokens.rows, 1);
      assert DrawsNew(refreshTokens.rows, randomUUID);
      refreshTokens.Create(tokenId, Row(family, expiresAt, None, parent));
      Note(if familyId.None? then Login(tokenId, family, expiresAt) else Event.Create(me, tokenId, expiresAt));
      ReplayKeepsInv(Start(born), trace);
      LiveIsOnly(world, tokenId);
    }

    lemma LiveIsOnly(s: State, id: TokenId)
      requires Inv(s) && id in s.rows && s.rows[id].Alive()
      ensures OnlyLive(s.rows, id)
    {
      assert Holds(s, Token(id), s.rows[id].family);
      forall t | t in s.rows && s.rows[t].Alive() && s.rows[t].family == s.rows[id].family ensures t == id {
        assert Holds(s, Token(t), s.rows[id].family);
      }
    }

    method RevokeTokenFamily(familyId: FamilyId)
      requires Valid() && (world.PcOf(me).Idle? || world.PcOf(me) == Reusing(familyId))
      modifies this, refreshTokens
      ensures Valid() && old(trace) <= trace && world.PcOf(me).Idle? && RowsKept(old(world), world)
      ensures AllRevoked(world.rows, familyId)
      ensures FamilyKnown(old(world).rows, familyId) && !InFlight(world, familyId) ==> NeverLiveAgain(world, familyId)
    {
      Interrupted();
      ghost var before := world;
      refreshTokens.RevokeFamily(familyId, clock);
      Note(if world.PcOf(me).Idle? then Logout(familyId) else Event.RevokeFamily(me));
      NowRevoked(old(world), before, world, familyId);
    }

    lemma NowRevoked(start: State, before: State, after: State, family: FamilyId)
      requires RowsKept(start, before) && (before.PcOf(me).Idle? || before.PcOf(me) == Reusing(family))
      requires Step(before, if before.PcOf(me).Idle? then Logout(family) else Event.RevokeFamily(me)) == Some(after)
      ensures AllRevoked(after.rows, family) && RowsKept(before, after) && after.PcOf(me).Idle?
      ensures FamilyKnown(start.rows, family) && !InFlight(after, family) ==> NeverLiveAgain(after, family)
    {
      if FamilyKnown(start.rows, family) {
        var t :| t in start.rows && start.rows[t].family == family;
        assert before.rows[t].family == family;
        forall c ensures Holds(after, Refresh(c), family) <==> Holds(before, Refresh(c), family) { }
        RevocationIsFinalExactlyWhenQuiet(before, after, family);
        if !InFlight(after, family) {
          forall c ensures !Holds(before, Refresh(c), family) {
            assert !Holds(after, Refresh(c), family);
          }
        }
      }
    }

    /** One rotation. Whatever the others do meanwhile: a token comes out only if this call itself
        revoked the one presented, and it is then the only live token of that family; a call that
        reports reuse leaves the family without a live one. With nobody else about, which of the
        four answers it gives follows from the row. */
    method RefreshAccessToken(decoded: RefreshTokenPayload) returns (res: Result<TokenId, AuthError>)
      requires Valid() && world.PcOf(me).Idle?
      modifies this, refreshTokens
      ensures Valid() && old(trace) <= trace && world.PcOf(me).Idle? && RowsKept(old(world), world)
      ensures res.Ok? ==> Rotated(old(world), world, decoded.tokenId, res.value)
      ensures res == Err(TokenReuseDetected) ==>
                decoded.tokenId in world.rows && AllRevoked(world.rows, world.rows[decoded.tokenId].family)
      ensures Undisturbed(old(interruptions)) ==>
                var rows, token := old(world).rows, decoded.tokenId;
                && (res == Err(InvalidRefreshToken) <==> token !in rows)
                && (res == Err(RefreshTokenExpired) <==> token in rows && rows[token].expiresAt < old(clock))
                && (res == Err(TokenReuseDetected) <==>
                      token in rows && rows[token].expiresAt >= old(clock) && rows[token].revokedAt.Some?)
                && (res.Ok? <==> token in rows && rows[token].expiresAt >= old(clock) && rows[token].revokedAt.None?)
    {
      var tokenRecord := ReadToken(decoded.tokenId);
      if tokenRecord.None? {
        return Err(InvalidRefreshToken);
      }
      CompareSecret(decoded.tokenId, tokenRecord.value);
      if tokenRecord.value.expiresAt < clock {
        return Err(RefreshTokenExpired);
      }
      if tokenRecord.value.revokedAt.Some? {
        RevokeTokenFamily(tokenRecord.value.family);
        return Err(TokenReuseDetected);
      }
      res := Rotate(decoded.tokenId, tokenRecord.value.family);
    }

    /** Revoke the token and create its successor, unless somebody else has revoked it meanwhile. */
    method Rotate(id: TokenId, family: FamilyId) returns (res: Result<TokenId, AuthError>)
      requires Valid() && world.PcOf(me) == Checked(id) && id in world.rows && world.rows[id].family == family
      modifies this, refreshTokens
      ensures Valid() && old(trace) <= trace && world.PcOf(me).Idle? && RowsKept(old(world), world)
      ensures if res.Ok? then Rotated(old(world), world, id, res.value)
              else res == Err(TokenReuseDetected) && AllRevoked(world.rows, family)
      ensures others(old(interruptions)) == [] && old(world).rows[id].Alive() ==> res.Ok?
    {
      var affectedCount := RevokeUsed(id);
      if affectedCount == 0 {
        RevokeTokenFamily(family);
        return Err(TokenReuseDetected);
      }
      var successor := GenerateRefreshToken(Some(family), Some(id));
      return Ok(successor);
    }

    /** Look the token up. */
    method ReadToken(id: TokenId) returns (tokenRecord: Option<Row>)
      requires Valid() && world.PcOf(me).Idle?
      modifies this, refreshTokens
      ensures Valid() && old(trace) <= trace && RowsKept(old(world), world)
      ensures tokenRecord == if id in world.rows then Some(world.rows[id]) else None
      ensures world.PcOf(me) == if tokenRecord.None? then Idle else Fetched(id, tokenRecord.value)
      ensures interruptions == old(interruptions) + 1
      ensures others(old(interruptions)) == [] ==> world.rows == old(world).rows && clock == old(clock)
    {
      Interrupted();
      tokenRecord := refreshTokens.FindByPk(id);
      Note(Present(me, id));
    }

    /** The wait for the secret, after which the row as it was read is judged. */
    method CompareSecret(id: TokenId, row: Row)
      requires Valid() && world.PcOf(me) == Fetched(id, row) && id in world.rows
      modifies this, refreshTokens
      ensures Valid() && old(trace) <= trace && RowsKept(old(world), world)
      ensures world.PcOf(me) == if row.expiresAt < clock then Idle
                                else if row.revokedAt.Some? then Reusing(row.family) else Checked(id)
      ensures interruptions == old(interruptions) + 1
      ensures others(old(interruptions)) == [] ==> world.rows == old(world).rows && clock == old(clock)
    {
      Interrupted();
      Note(Judge(me));
    }

    /** The conditional update that lets at most one refresh of a token go on. */
    method RevokeUsed(id: TokenId) returns (affectedCount: nat)
      requires Valid() && world.PcOf(me) == Checked(id) && id in world.rows
      modifies this, refreshTokens
      ensures Valid() && old(trace) <= trace && RowsKept(old(world), world) && !world.rows[id].Alive()
      ensures affectedCount > 0 ==>
                old(world).rows[id].Alive() && world.PcOf(me) == Rotating(id, old(world).rows[id].family)
      ensures affectedCount == 0 ==> world.PcOf(me) == Reusing(old(world).rows[id].family)
      ensures interruptions == old(interruptions) + 1
      ensures others(old(interruptions)) == [] && old(world).rows[id].Alive() ==> affectedCount > 0
    {
      Interrupted();
      affectedCount := refreshTokens.RevokeIfLive(id, clock);
      Note(RevokeOwn(me));
    }

    /** Nobody else acts from the i-th interruption on. */
    ghost predicate Undisturbed(i: nat) {
      forall j :: i <= j ==> others(j) == []
    }

    method LogoutUser(refreshToken: Option<RefreshTokenPayload>)
      requires Valid() && world.PcOf(me).Idle?
      modifies this, refreshTokens
      ensures Valid() && old(trace) <= trace && world.PcOf(me).Idle? && RowsKept(old(world), world)
      ensures refreshToken.None? ==> world == old(world)
      ensures refreshToken.Some? ==>
                AllRevoked(world.rows, refreshToken.value.familyId)
      ensures refreshToken.Some? ==>
                var family := refreshToken.value.familyId;
                FamilyKnown(old(world).rows, family) && !InFlight(world, family) ==> NeverLiveAgain(world, family)
    {
      if refreshToken.None? {
        return;
      }
      RevokeTokenFamily(refreshToken.value.familyId);
    }
  }

  ghost predicate DrawsNew(rows: Table, draw: (Table, nat) -> string) {
    draw(rows, 0) != draw(rows, 1) && NewTo(rows, draw(rows, 0)) && NewTo(rows, draw(rows, 1))
  }

  /** Rows are never dropped, re-parented or brought back to life. */
  ghost predicate RowsKept(before: State, after: State) {
    before.now <= after.now && forall t :: t in before.rows ==>
      && t in after.rows
      && after.rows[t] == before.rows[t].(revokedAt := after.rows[t].revokedAt)
      && (after.rows[t].Alive() ==> before.rows[t].Alive())
  }

  ghost predicate AllRevoked(rows: Table, family: FamilyId) {
    forall t :: t in rows && rows[t].family == family ==> !rows[t].Alive()
  }

  /** The token is live and no other of its family is. */
  ghost predicate OnlyLive(rows: Table, token: TokenId)
    requires token in rows
  {
    forall t :: t in rows && rows[t].family == rows[token].family ==> (rows[t].Alive() <==> t == token)
  }

  /** `next` was created in exchange for `token`, which was live until then. */
  ghost predicate Rotated(before: State, after: State, token: TokenId, next: TokenId) {
    && token in after.rows && !after.rows[token].Alive()
    && (token in before.rows ==> before.rows[token].Alive())
    && next in after.rows && next !in before.rows && after.rows[next].from == Some(token)
    && after.rows[next].family == after.rows[token].family
    && OnlyLive(after.rows, next)
  }
}
