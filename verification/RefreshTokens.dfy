/** Refresh-token rotation (section 4.14.2 of RFC 9700) as a step machine: any number of logins,
    refreshes and logouts interleave over one table, and any of them may die between two statements. */
module RefreshTokens {
  import opened Common

  type TokenId = string
  type FamilyId = string

  /** `from` is history: the token this one replaced. */
  datatype Row = Row(family: FamilyId, expiresAt: int, revokedAt: Option<int>, from: Option<TokenId>) {
    predicate Alive() { revokedAt.None? }
  }

  type Table = map<TokenId, Row>

  /** Where a refresh stands between two statements. */
  datatype Pc =
    | Idle
    | Fetched(token: TokenId, row: Row)            // has the row as it was, the secret is being compared
    | Checked(token: TokenId)                      // that row is unexpired and not revoked
    | Reusing(family: FamilyId)                    // about to revoke the family
    | Rotating(token: TokenId, family: FamilyId)   // revoked its token, successor not yet created

  datatype State = State(rows: Table, now: int, calls: map<nat, Pc>) {
    function PcOf(c: nat): Pc { if c in calls then calls[c] else Idle }
    function Go(c: nat, pc: Pc): State { this.(calls := calls[c := pc]) }
  }

  datatype Event =
    | Tick(to: int)
    | Login(token: TokenId, family: FamilyId, expiresAt: int)
    | Present(c: nat, token: TokenId)
    | Judge(c: nat)
    | RevokeOwn(c: nat)
    | RevokeFamily(c: nat)
    | Create(c: nat, token: TokenId, expiresAt: int)
    | Logout(family: FamilyId)
    | Crash(c: nat)

  function Start(now: int): State { State(map[], now, map[]) }

  /** UPDATE ... SET revokedAt WHERE familyId */
  function FamilyRevoked(rows: Table, family: FamilyId, now: int): Table {
    map t | t in rows :: if rows[t].family == family then rows[t].(revokedAt := Some(now)) else rows[t]
  }

  predicate FamilyKnown(rows: Table, family: FamilyId) {
    exists t :: t in rows && rows[t].family == family
  }

  function Step(s: State, e: Event): Option<State> {
    match e
    case Tick(to) => if s.now <= to then Some(s.(now := to)) else None
    case Login(token, family, expiresAt) =>
      // ids are fresh
      if token in s.rows || FamilyKnown(s.rows, family) then None
      else Some(s.(rows := s.rows[token := Row(family, expiresAt, None, None)]))
    case Present(c, token) =>
      if !s.PcOf(c).Idle? then None
      else if token !in s.rows then Some(s)
      else Some(s.Go(c, Fetched(token, s.rows[token])))
    case Judge(c) =>
      (match s.PcOf(c)
       case Fetched(token, row) =>
         Some(s.Go(c, if row.expiresAt < s.now then Idle
                      else if row.revokedAt.Some? then Reusing(row.family) else Checked(token)))
       case _ => None)
    case RevokeOwn(c) =>
      (match s.PcOf(c)
       case Checked(token) =>
         if token !in s.rows then None
         else if s.rows[token].revokedAt.None? then
           var row := s.rows[token];
           Some(s.(rows := s.rows[token := row.(revokedAt := Some(s.now))]).Go(c, Rotating(token, row.family)))
         else Some(s.Go(c, Reusing(s.rows[token].family)))
       case _ => None)
    case RevokeFamily(c) =>
      (match s.PcOf(c)
       case Reusing(family) => Some(s.(rows := FamilyRevoked(s.rows, family, s.now)).Go(c, Idle))
       case _ => None)
    case Create(c, token, expiresAt) =>
      (match s.PcOf(c)
       case Rotating(parent, family) =>
         if token in s.rows then None
         else Some(s.(rows := s.rows[token := Row(family, expiresAt, None, Some(parent))]).Go(c, Idle))
       case _ => None)
    case Logout(family) => Some(s.(rows := FamilyRevoked(s.rows, family, s.now)))
    case Crash(c) => Some(s.Go(c, Idle))
  }

  function Replay(s: State, trace: seq<Event>): Option<State>
    decreases |trace|
  {
    if trace == [] then Some(s)
    else match Step(s, trace[0])
      case None => None
      case Some(next) => Replay(next, trace[1..])
  }

  ghost predicate Reachable(s: State) {
    exists now: int, trace: seq<Event> :: Replay(Start(now), trace) == Some(s)
  }

  /** A live token of the family, or a refresh that has yet to create one. */
  datatype Holder = Token(t: TokenId) | Refresh(c: nat)

  ghost predicate Holds(s: State, h: Holder, family: FamilyId) {
    match h
    case Token(t) => t in s.rows && s.rows[t].family == family && s.rows[t].Alive()
    case Refresh(c) => c in s.calls && s.calls[c].Rotating? && s.calls[c].family == family
  }

  /** h has replaced, or is replacing, `parent`. */
  ghost predicate Replaces(s: State, h: Holder, parent: TokenId) {
    match h
    case Token(t) => t in s.rows && s.rows[t].from == Some(parent)
    case Refresh(c) => c in s.calls && s.calls[c].Rotating? && s.calls[c].token == parent
  }

  /** A token that a refresh has looked up is in the table. */
  predicate Knows(s: State, pc: Pc) {
    match pc
    case Fetched(token, row) => token in s.rows && s.rows[token].family == row.family
    case Checked(token) => token in s.rows
    case _ => true
  }

  ghost predicate Inv(s: State) {
    && (forall g, h, f :: Holds(s, g, f) && Holds(s, h, f) ==> g == h)
    && (forall g, h, p :: Replaces(s, g, p) && Replaces(s, h, p) ==> g == h)
    && (forall h, p :: Replaces(s, h, p) ==> p in s.rows && !s.rows[p].Alive())
    && (forall c, f :: Holds(s, Refresh(c), f) ==> FamilyKnown(s.rows, f))
    && (forall c :: c in s.calls ==> Knows(s, s.calls[c]))
  }

  lemma LoginKeepsInv(s: State, e: Event)
    requires Inv(s) && e.Login? && Step(s, e).Some?
    ensures Inv(Step(s, e).value)
  {
    var s' := Step(s, e).value;
    forall c, f | Holds(s, Refresh(c), f) ensures f != e.family && FamilyKnown(s'.rows, f) {
      assert FamilyKnown(s.rows, f);
      var t :| t in s.rows && s.rows[t].family == f;
      assert s'.rows[t].family == f;
    }
    forall h, f | Holds(s', h, f) ensures if h == Token(e.token) then f == e.family
        else Holds(s, h, f) && f != e.family { }
    forall h, p | Replaces(s', h, p) ensures Replaces(s, h, p) && h != Token(e.token) { }
  }

  lemma RevokeOwnKeepsInv(s: State, e: Event)
    requires Inv(s) && e.RevokeOwn? && Step(s, e).Some?
    ensures Inv(Step(s, e).value)
  {
    var s' := Step(s, e).value;
    var token := s.PcOf(e.c).token;
    if s.rows[token].Alive() {
      var family := s.rows[token].family;
      assert Holds(s, Token(token), family);
      forall h, f | Holds(s', h, f) ensures if h == Refresh(e.c) then f == family else Holds(s, h, f) && f != family {
        assert h != Refresh(e.c) ==> Holds(s, h, f) && h != Token(token);
      }
      forall h, p | Replaces(s', h, p) ensures if h == Refresh(e.c) then p == token
          else Replaces(s, h, p) && p != token {
        assert h != Refresh(e.c) ==> Replaces(s, h, p);
      }
      assert s'.rows[token].family == family;
      forall c, f | Holds(s', Refresh(c), f) ensures FamilyKnown(s'.rows, f) {
        if c != e.c {
          assert Holds(s, Refresh(c), f);
          assert FamilyKnown(s.rows, f);
          var t :| t in s.rows && s.rows[t].family == f;
          assert s'.rows[t].family == f;
        }
      }
    } else {
      QuietKeepsInv(s, s');
    }
  }

  lemma CreateKeepsInv(s: State, e: Event)
    requires Inv(s) && e.Create? && Step(s, e).Some?
    ensures Inv(Step(s, e).value)
  {
    var s' := Step(s, e).value;
    var parent, family := s.PcOf(e.c).token, s.PcOf(e.c).family;
    assert Holds(s, Refresh(e.c), family) && Replaces(s, Refresh(e.c), parent);
    forall h, f | Holds(s', h, f) ensures if h == Token(e.token) then f == family else Holds(s, h, f) && f != family {
      assert h != Token(e.token) ==> Holds(s, h, f) && h != Refresh(e.c);
    }
    forall h, p | Replaces(s', h, p) ensures if h == Token(e.token) then p == parent
        else Replaces(s, h, p) && p != parent {
      assert h != Token(e.token) ==> Replaces(s, h, p) && h != Refresh(e.c);
    }
    forall c, f | Holds(s', Refresh(c), f) ensures FamilyKnown(s'.rows, f) {
      assert Holds(s, Refresh(c), f);
      assert FamilyKnown(s.rows, f);
      var t :| t in s.rows && s.rows[t].family == f;
      assert s'.rows[t].family == f;
    }
  }

  /** Steps that only revoke tokens and end or move calls. */
  ghost predicate Quiet(s: State, s': State) {
    && s'.rows.Keys == s.rows.Keys
    && (forall t :: t in s.rows ==>
          && s'.rows[t] == s.rows[t].(revokedAt := s'.rows[t].revokedAt)
          && (s'.rows[t].Alive() ==> s.rows[t].Alive()))
    && (forall c :: c in s'.calls && s'.calls[c].Rotating? ==> c in s.calls && s.calls[c] == s'.calls[c])
    && (forall c :: c in s'.calls ==> Knows(s', s'.calls[c]))
  }

  lemma QuietKeepsInv(s: State, s': State)
    requires Inv(s) && Quiet(s, s')
    ensures Inv(s')
  {
    forall h, f | Holds(s', h, f) ensures Holds(s, h, f) { }
    forall h, p | Replaces(s', h, p) ensures Replaces(s, h, p) { }
    forall c, f | Holds(s', Refresh(c), f) ensures FamilyKnown(s'.rows, f) {
      assert Holds(s, Refresh(c), f);
      assert FamilyKnown(s.rows, f);
      var t :| t in s.rows && s.rows[t].family == f;
      assert s'.rows[t].family == f;
    }
  }

  lemma StepKeepsInv(s: State, e: Event)
    requires Inv(s) && Step(s, e).Some?
    ensures Inv(Step(s, e).value)
  {
    match e
    case Login(_, _, _) => LoginKeepsInv(s, e);
    case RevokeOwn(_) => RevokeOwnKeepsInv(s, e);
    case Create(_, _, _) => CreateKeepsInv(s, e);
    case _ => QuietKeepsInv(s, Step(s, e).value);
  }

  lemma {:induction false} ReplayKeepsInv(s: State, trace: seq<Event>)
    requires Inv(s) && Replay(s, trace).Some?
    ensures Inv(Replay(s, trace).value)
    decreases |trace|
  {
    if trace != [] {
      StepKeepsInv(s, trace[0]);
      ReplayKeepsInv(Step(s, trace[0]).value, trace[1..]);
    }
  }

  lemma ReachableInv(s: State)
    requires Reachable(s)
    ensures Inv(s)
  {
    var now: int, trace: seq<Event> :| Replay(Start(now), trace) == Some(s);
    ReplayKeepsInv(Start(now), trace);
  }

  ghost function Holders(s: State, family: FamilyId): set<Holder> {
    (set t | t in s.rows && Holds(s, Token(t), family) :: Token(t))
    + (set c | c in s.calls && Holds(s, Refresh(c), family) :: Refresh(c))
  }

  /** Under every interleaving, live tokens of a family and refreshes about to create one are at most one
      together. */
  lemma AtMostOneHolder(s: State, family: FamilyId)
    requires Reachable(s)
    ensures |Holders(s, family)| <= 1
  {
    ReachableInv(s);
    var hs := Holders(s, family);
    if h :| h in hs {
      assert forall g :: g in hs ==> Holds(s, g, family);
      assert hs == {h};
    }
  }

  /** No token is ever replaced twice. */
  lemma AtMostOneSuccessor(s: State, parent: TokenId, a: TokenId, b: TokenId)
    requires Reachable(s) && a in s.rows && b in s.rows
    requires s.rows[a].from == Some(parent) && s.rows[b].from == Some(parent)
    ensures a == b && parent in s.rows && !s.rows[parent].Alive()
  {
    ReachableInv(s);
    assert Replaces(s, Token(a), parent) && Replaces(s, Token(b), parent);
  }

  // ---- Reuse

  ghost predicate HasLiveToken(s: State, family: FamilyId) {
    exists t :: Holds(s, Token(t), family)
  }

  /** A refresh of the family has revoked its token and not yet created the successor. */
  ghost predicate InFlight(s: State, family: FamilyId) {
    exists c :: Holds(s, Refresh(c), family)
  }

  /** Known, and nothing live or on its way. */
  ghost predicate Dead(s: State, family: FamilyId) {
    FamilyKnown(s.rows, family) && !HasLiveToken(s, family) && !InFlight(s, family)
  }

  lemma DeadStays(s: State, e: Event, family: FamilyId)
    requires Dead(s, family) && Step(s, e).Some?
    ensures Dead(Step(s, e).value, family)
  {
    var s' := Step(s, e).value;
    var t :| t in s.rows && s.rows[t].family == family;
    assert t in s'.rows && s'.rows[t].family == family;
    assert forall h :: !Holds(s, h, family) by {
      forall h ensures !Holds(s, h, family) {
        match h
        case Token(t) => assert !Holds(s, Token(t), family);
        case Refresh(c) => assert !Holds(s, Refresh(c), family);
      }
    }
    forall h ensures !Holds(s', h, family) {
      match e
      case RevokeOwn(c) => assert !Holds(s, Token(s.PcOf(c).token), family) && !Holds(s, h, family);
      case Create(c, _, _) => assert !Holds(s, Refresh(c), family) && !Holds(s, h, family);
      case _ => assert !Holds(s, h, family);
    }
  }

  /** Whatever happens from here, the family has no live token. */
  ghost predicate NeverLiveAgain(s: State, family: FamilyId) {
    forall trace :: Replay(s, trace).Some? ==> !HasLiveToken(Replay(s, trace).value, family)
  }

  lemma {:induction false} DeadForever(s: State, trace: seq<Event>, family: FamilyId)
    requires Dead(s, family) && Replay(s, trace).Some?
    ensures !HasLiveToken(Replay(s, trace).value, family)
    decreases |trace|
  {
    if trace != [] {
      DeadStays(s, trace[0], family);
      DeadForever(Step(s, trace[0]).value, trace[1..], family);
    }
  }

  /** s2 is s with one family revoked and nothing else done to the table or to refreshes in flight. */
  ghost predicate Revokes(s: State, s2: State, family: FamilyId) {
    && FamilyKnown(s.rows, family)
    && s2.rows == FamilyRevoked(s.rows, family, s.now)
    && forall c :: Holds(s2, Refresh(c), family) <==> Holds(s, Refresh(c), family)
  }

  /** Revoking a family leaves it without a live token for good, whatever happens afterwards, exactly
      when no refresh of it stands between revoking its token and creating the successor. */
  lemma RevocationIsFinalExactlyWhenQuiet(s: State, s2: State, family: FamilyId)
    requires Revokes(s, s2, family)
    ensures !InFlight(s, family) <==> NeverLiveAgain(s2, family)
  {
    if InFlight(s, family) {
      var d :| Holds(s, Refresh(d), family);
      assert Holds(s2, Refresh(d), family);
      var unused := FreshToken(s2.rows);
      var trace := [Create(d, unused, s.now)];
      var s3 := Step(s2, trace[0]).value;
      assert trace[1..] == [] && Replay(s3, []) == Some(s3) && Replay(s2, trace) == Some(s3);
      assert Holds(s3, Token(unused), family);
      assert !NeverLiveAgain(s2, family);
    } else {
      var t :| t in s.rows && s.rows[t].family == family;
      assert s2.rows[t].family == family;
      assert Dead(s2, family);
      forall trace | Replay(s2, trace).Some? ensures !HasLiveToken(Replay(s2, trace).value, family) {
        DeadForever(s2, trace, family);
      }
    }
  }

  /** A refresh has fetched a row that was revoked, and finds it unexpired: the call goes on to revoke the
      family, and at whatever later moment it does so, that is final exactly when no refresh of the family is
      in flight. */
  lemma ReuseKillsFamilyExactlyWhenQuiet(s: State, c: nat, token: TokenId, row: Row, later: State)
    requires s.PcOf(c) == Fetched(token, row) && !row.Alive() && row.expiresAt >= s.now
    requires token in later.rows && later.rows[token].family == row.family
    requires Step(s, Judge(c)).value.PcOf(c) == later.PcOf(c)
    ensures Step(later, RevokeFamily(c)).Some?
    ensures !InFlight(later, row.family) <==> NeverLiveAgain(Step(later, RevokeFamily(c)).value, row.family)
  {
    var family := row.family;
    assert later.PcOf(c) == Reusing(family);
    var s2 := Step(later, RevokeFamily(c)).value;
    assert FamilyKnown(later.rows, family);
    forall d ensures Holds(s2, Refresh(d), family) <==> Holds(later, Refresh(d), family) { }
    RevocationIsFinalExactlyWhenQuiet(later, s2, family);
  }

  lemma LogoutIsFinalExactlyWhenQuiet(s: State, family: FamilyId)
    requires FamilyKnown(s.rows, family)
    ensures Step(s, Logout(family)).Some?
    ensures !InFlight(s, family) <==> NeverLiveAgain(Step(s, Logout(family)).value, family)
  {
    var s2 := Step(s, Logout(family)).value;
    forall d ensures Holds(s2, Refresh(d), family) <==> Holds(s, Refresh(d), family) { }
    RevocationIsFinalExactlyWhenQuiet(s, s2, family);
  }

  lemma ThenOne(s0: State, trace: seq<Event>, s: State, e: Event, end: State) returns (longer: seq<Event>)
    requires Replay(s0, trace) == Some(s) && Step(s, e) == Some(end)
    ensures longer == trace + [e] && Replay(s0, longer) == Some(end)
  {
    ReplayAppend(s0, trace, e);
    longer := trace + [e];
  }

  /** A run to a refresh that has revoked its token and not yet created the successor. */
  lemma ToRotating(now: int, token: TokenId, family: FamilyId) returns (trace: seq<Event>, s: State)
    ensures Replay(Start(now), trace) == Some(s) && s.PcOf(0) == Rotating(token, family) && s.now == now
    ensures s.rows == map[token := Row(family, now, Some(now), None)]
  {
    var s1 := Step(Start(now), Login(token, family, now)).value;
    trace := ThenOne(Start(now), [], Start(now), Login(token, family, now), s1);
    var s2 := Step(s1, Present(0, token)).value;
    trace := ThenOne(Start(now), trace, s1, Present(0, token), s2);
    var s3 := Step(s2, Judge(0)).value;
    trace := ThenOne(Start(now), trace, s2, Judge(0), s3);
    s := Step(s3, RevokeOwn(0)).value;
    trace := ThenOne(Start(now), trace, s3, RevokeOwn(0), s);
  }

  /** A run on which a logout is overtaken: a refresh has revoked its token, the family is logged out, and the
      refresh goes on to create a live successor. */
  lemma LogoutMissesRefresh(now: int, token: TokenId, next: TokenId, family: FamilyId)
      returns (before: seq<Event>, s: State, after: seq<Event>, end: State)
    requires token != next
    ensures Replay(Start(now), before) == Some(s) && Reachable(s) && InFlight(s, family)
    ensures after == [] + [Logout(family)] + [Create(0, next, now)] && Replay(s, after) == Some(end)
    ensures Holds(end, Token(next), family) && HasLiveToken(end, family)
  {
    before, s := ToRotating(now, token, family);
    assert Holds(s, Refresh(0), family);
    var s1 := Step(s, Logout(family)).value;
    after := ThenOne(s, [], s, Logout(family), s1);
    end := Step(s1, Create(0, next, now)).value;
    after := ThenOne(s, after, s1, Create(0, next, now), end);
    assert Holds(end, Token(next), family);
  }

  lemma {:induction false} ReplayAppend(s: State, trace: seq<Event>, e: Event)
    requires Replay(s, trace).Some?
    ensures Replay(s, trace + [e]) == Step(Replay(s, trace).value, e)
    decreases |trace|
  {
    if trace == [] {
      assert ([] + [e])[1..] == [];
    } else {
      assert (trace + [e])[1..] == trace[1..] + [e];
      ReplayAppend(Step(s, trace[0]).value, trace[1..], e);
    }
  }

  /** This step revokes the token: the refresh it was presented to takes it, or its family is revoked. */
  predicate Kills(s: State, e: Event, token: TokenId)
    requires token in s.rows
  {
    match e
    case RevokeOwn(c) => s.PcOf(c) == Checked(token)
    case RevokeFamily(c) => s.PcOf(c) == Reusing(s.rows[token].family)
    case Logout(family) => family == s.rows[token].family
    case _ => false
  }

  predicate Spared(s: State, trace: seq<Event>, token: TokenId)
    requires token in s.rows && Replay(s, trace).Some?
    decreases |trace|
  {
    trace == [] ||
      (!Kills(s, trace[0], token)
            && token in Step(s, trace[0]).value.rows && Spared(Step(s, trace[0]).value, trace[1..], token))
  }

  lemma KillStep(s: State, e: Event, token: TokenId)
    requires token in s.rows && Step(s, e).Some?
    ensures var rows := Step(s, e).value.rows;
            && token in rows && rows[token].family == s.rows[token].family
            && rows[token].expiresAt == s.rows[token].expiresAt
            && (rows[token].Alive() <==> s.rows[token].Alive() && !Kills(s, e, token))
  {
  }

  /** Over every run a live token stays live exactly as long as it is not itself used up and its own family is
      not revoked; what happens to other tokens and families does not touch it. */
  lemma {:induction false} LiveExactlyWhileSpared(s: State, trace: seq<Event>, token: TokenId)
    requires token in s.rows && Replay(s, trace).Some?
    ensures token in Replay(s, trace).value.rows
    ensures Replay(s, trace).value.rows[token].Alive() <==> s.rows[token].Alive() && Spared(s, trace, token)
    ensures Replay(s, trace).value.rows[token].expiresAt == s.rows[token].expiresAt
    decreases |trace|
  {
    if trace != [] {
      KillStep(s, trace[0], token);
      LiveExactlyWhileSpared(Step(s, trace[0]).value, trace[1..], token);
    }
  }

  /** Neither a token nor a family goes by this id. */
  ghost predicate NewTo(rows: Table, id: string) {
    id !in rows && !FamilyKnown(rows, id)
  }

  /** Some id is always unused: a string longer than all those in the table. */
  lemma FreshToken(rows: Table) returns (id: string)
    ensures NewTo(rows, id)
  {
    var n := LongerThanAll(rows.Keys + set t | t in rows :: rows[t].family);
    id := seq(n, _ => 'x');
  }

  lemma {:induction false} LongerThanAll(ids: set<TokenId>) returns (n: nat)
    ensures forall t :: t in ids ==> |t| < n
  {
    if ids == {} {
      n := 0;
    } else {
      var t :| t in ids;
      var m := LongerThanAll(ids - {t});
      n := if |t| < m then m else |t| + 1;
    }
  }
}
