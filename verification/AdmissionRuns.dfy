/** What every run of admissions and finishes keeps: exact counters, a readers-writer lock, and the release fence. */
module TableSize {
  /** The entries of a two-level table, each named by its row and column. */
  ghost function Entries<K, V>(table: map<K, map<nat, V>>): set<(K, nat)> {
    set k, t | k in table && t in table[k] :: (k, t)
  }

  ghost function Row<K, V>(table: map<K, map<nat, V>>, k: K): map<nat, V> { if k in table then table[k] else map[] }

  ghost function RowEntries<K>(k: K, columns: set<nat>): set<(K, nat)> { set t | t in columns :: (k, t) }

  lemma RowSize<K>(k: K, columns: set<nat>)
    ensures |RowEntries(k, columns)| == |columns|
  {
    if columns != {} {
      var t :| t in columns;
      RowSize(k, columns - {t});
      assert RowEntries(k, columns) == RowEntries(k, columns - {t}) + {(k, t)};
    }
  }

  lemma RowsElsewhere<K, V>(table: map<K, map<nat, V>>, table': map<K, map<nat, V>>, k: K)
    requires forall j :: j != k ==> Row(table, j) == Row(table', j)
    ensures Entries(table) - RowEntries(k, Row(table, k).Keys) == Entries(table') - RowEntries(k, Row(table', k).Keys)
  {
    var was, now := RowEntries(k, Row(table, k).Keys), RowEntries(k, Row(table', k).Keys);
    forall j, t ensures (j, t) in Entries(table) - was <==> (j, t) in Entries(table') - now {
      assert Row(table, j) == Row(table', j) || j == k;
    }
  }

  lemma WithoutRow<K, V>(table: map<K, map<nat, V>>, k: K)
    ensures |Entries(table) - RowEntries(k, Row(table, k).Keys)| == |Entries(table)| - |Row(table, k)|
  {
    var row := RowEntries(k, Row(table, k).Keys);
    RowSize(k, Row(table, k).Keys);
    assert row <= Entries(table);
  }

  /** Replacing one row moves the number of entries by exactly what that row moved. */
  lemma RowReplaced<K, V>(table: map<K, map<nat, V>>, table': map<K, map<nat, V>>, k: K)
    requires forall j :: j != k ==> Row(table, j) == Row(table', j)
    ensures |Entries(table')| == |Entries(table)| - |Row(table, k)| + |Row(table', k)|
  {
    RowsElsewhere(table, table', k);
    WithoutRow(table, k);
    WithoutRow(table', k);
  }
}

module AdmissionRuns {
  import opened Options
  import opened Admission
  import opened TableSize

  // -------------------------------------------------- what the counters count

  ghost function CreateTable(l: Ledger): map<OwnerId, map<Token, Option<SessionId>>> {
    map o | o in l.owners :: l.owners[o].creates
  }

  ghost function PreflightTable(l: Ledger): map<OwnerId, map<Token, Preflight>> {
    map o | o in l.owners :: l.owners[o].preflights
  }

  ghost function CountedRow(at: map<Token, SessionLease>): map<Token, SessionLease> {
    map t | t in at && at[t].countsOperation :: at[t]
  }

  ghost function CountedTable(l: Ledger): map<SessionId, map<Token, SessionLease>> {
    map s | s in l.leases :: CountedRow(l.leases[s])
  }

  ghost function Creates(l: Ledger): set<(OwnerId, Token)> { Entries(CreateTable(l)) }

  ghost function Preflights(l: Ledger): set<(OwnerId, Token)> { Entries(PreflightTable(l)) }

  ghost function Leases(l: Ledger): set<(SessionId, Token)> { Entries(l.leases) }

  ghost function Counted(l: Ledger): set<(SessionId, Token)> { Entries(CountedTable(l)) }

  ghost function Releasing(l: Ledger): set<OwnerId> { set o | o in l.owners && l.owners[o].release.Some? }

  // ------------------------------------------------------------- the invariant

  /** The counters are exact, so their bounds bound what is in flight. */
  ghost predicate Exact(l: Ledger) {
    && l.operations == |Creates(l)| + |Preflights(l)| + |Counted(l)| <= MAX_OWNER_OPERATION_LEASES
    && l.releases == |Releasing(l)| <= MAX_CONCURRENT_OWNER_RELEASES
    && l.sessions == |Leases(l)|
  }

  /** No owner without an operation and no session without a lease is retained. */
  ghost predicate NoneIdle(l: Ledger) {
    && (forall o <- l.owners :: l.owners[o] != NO_OWNER)
    && (forall s <- l.leases :: l.leases[s] != map[])
  }

  /**
   While an owner is released: its creates are all grandfathered under their recorded session, its preflights retired.
   */
  ghost predicate Fenced(state: OwnerState) {
    state.release.Some? ==>
      && state.creates.Keys <= state.release.value.grandfathered.Keys
      && (forall t <- state.creates :: state.release.value.grandfathered[t] == state.creates[t])
      && (forall t <- state.preflights :: state.preflights[t].retired)
  }

  /** Tokens already drawn lie below `next`, so a new one is never confused with an old one. */
  ghost predicate Drawn(state: OwnerState, next: Token) {
    && (forall t <- state.creates :: t < next)
    && (forall t <- state.preflights :: t < next)
    && (state.release.Some? ==> state.release.value.token < next)
  }

  /** A readers-writer lock: an exclusive lease has the session to itself. */
  ghost predicate Locked(at: map<Token, SessionLease>) {
    && (forall t <- at :: at[t].mode.Exclusive? ==> at.Keys == {t})
    && (forall t <- at :: ModeOf(at[t].operation) == Some(at[t].mode))
  }

  /** A claim belongs to its session's sole lease, which is a create's with the same token and owner. */
  ghost predicate Backed(claim: Claim, at: map<Token, SessionLease>) {
    at.Keys == {claim.token} && at[claim.token].operation.Create? && at[claim.token].ownerId == claim.ownerId
  }

  ghost predicate OwnerOk(state: OwnerState, next: Token) { Fenced(state) && Drawn(state, next) }

  ghost predicate SessionOk(at: map<Token, SessionLease>, next: Token) { Locked(at) && forall t <- at :: t < next }

  ghost predicate OwnersOk(l: Ledger) { forall o :: OwnerOk(OwnerAt(l, o), l.nextToken) }

  ghost predicate SessionsOk(l: Ledger) { forall s :: SessionOk(LeasesAt(l, s), l.nextToken) }

  ghost predicate ClaimsOk(l: Ledger) { forall s <- l.claims :: Backed(l.claims[s], LeasesAt(l, s)) }

  ghost predicate Inv(l: Ledger) { Exact(l) && NoneIdle(l) && OwnersOk(l) && SessionsOk(l) && ClaimsOk(l) }

  // ------------------------------------------ what one owner or session moves

  /** Only owner `o` differs, and it is now in `state`. */
  ghost predicate OnlyOwner(l: Ledger, l': Ledger, o: OwnerId, state: OwnerState) {
    && OwnerAt(l', o) == state
    && forall x :: x != o ==> OwnerAt(l', x) == OwnerAt(l, x)
  }

  lemma OwnerRow(l: Ledger, x: OwnerId)
    ensures Row(CreateTable(l), x) == OwnerAt(l, x).creates
    ensures Row(PreflightTable(l), x) == OwnerAt(l, x).preflights
  {}

  lemma OwnerReplaced(l: Ledger, l': Ledger, o: OwnerId, state: OwnerState)
    requires OnlyOwner(l, l', o, state)
    ensures |Creates(l')| == |Creates(l)| - |OwnerAt(l, o).creates| + |state.creates|
    ensures |Preflights(l')| == |Preflights(l)| - |OwnerAt(l, o).preflights| + |state.preflights|
  {
    forall x
      ensures x != o ==>
                && Row(CreateTable(l), x) == Row(CreateTable(l'), x)
                && Row(PreflightTable(l), x) == Row(PreflightTable(l'), x)
    {
      OwnerRow(l, x);
      OwnerRow(l', x);
    }
    OwnerRow(l, o);
    OwnerRow(l', o);
    RowReplaced(CreateTable(l), CreateTable(l'), o);
    RowReplaced(PreflightTable(l), PreflightTable(l'), o);
  }

  lemma ReleasingElsewhere(l: Ledger, l': Ledger, o: OwnerId, state: OwnerState)
    requires OnlyOwner(l, l', o, state)
    ensures Releasing(l') - {o} == Releasing(l) - {o}
  {
    forall x ensures x in Releasing(l') - {o} <==> x in Releasing(l) - {o} {
      ReleasingAt(l, x);
      ReleasingAt(l', x);
    }
  }

  lemma WithoutReleasing(l: Ledger, o: OwnerId)
    ensures |Releasing(l) - {o}| == |Releasing(l)| - if OwnerAt(l, o).release.Some? then 1 else 0
  {
    ReleasingAt(l, o);
    if o in Releasing(l) { assert Releasing(l) == (Releasing(l) - {o}) + {o}; }
        else { assert Releasing(l) - {o} == Releasing(l); }
  }

  lemma ReleasingReplaced(l: Ledger, l': Ledger, o: OwnerId, state: OwnerState)
    requires OnlyOwner(l, l', o, state)
    ensures |Releasing(l')| == |Releasing(l)| - (if OwnerAt(l, o).release.Some? then 1
                                                 else 0) + (if state.release.Some? then 1 else 0)
  {
    ReleasingElsewhere(l, l', o, state);
    WithoutReleasing(l, o);
    WithoutReleasing(l', o);
  }

  lemma ReleasingAt(l: Ledger, x: OwnerId)
    ensures x in Releasing(l) <==> OwnerAt(l, x).release.Some?
  {}

  lemma LeaseRow(l: Ledger, x: SessionId)
    ensures Row(l.leases, x) == LeasesAt(l, x)
    ensures Row(CountedTable(l), x) == CountedRow(LeasesAt(l, x))
  {}

  lemma LeasesReplaced(l: Ledger, l': Ledger, s: SessionId, at: map<Token, SessionLease>)
    requires LeasesAt(l', s) == at && forall x :: x != s ==> LeasesAt(l', x) == LeasesAt(l, x)
    ensures |Leases(l')| == |Leases(l)| - |LeasesAt(l, s)| + |at|
    ensures |Counted(l')| == |Counted(l)| - |CountedRow(LeasesAt(l, s))| + |CountedRow(at)|
  {
    forall x
      ensures x != s ==> Row(l.leases, x) == Row(l'.leases, x) && Row(CountedTable(l), x) == Row(CountedTable(l'), x)
    {
      LeaseRow(l, x);
      LeaseRow(l', x);
    }
    LeaseRow(l, s);
    LeaseRow(l', s);
    RowReplaced(l.leases, l'.leases, s);
    RowReplaced(CountedTable(l), CountedTable(l'), s);
  }

  // --------------------------------------------------- each transition keeps it

  lemma WithOwnerOnly(l: Ledger, l': Ledger, o: OwnerId, state: OwnerState)
    requires l'.owners == WithOwner(l.owners, o, state)
    ensures OnlyOwner(l, l', o, state)
  {}

  lemma WithOwnerNotIdle(l: Ledger, l': Ledger, o: OwnerId, state: OwnerState)
    requires NoneIdle(l) && l'.leases == l.leases && l'.owners == WithOwner(l.owners, o, state)
    ensures NoneIdle(l')
  {}

  ghost predicate SameSessions(l: Ledger, l': Ledger) {
    l'.leases == l.leases && l'.claims == l.claims && l'.sessions == l.sessions && l'.nextToken >= l.nextToken
  }

  ghost predicate OwnerCountersMove(l: Ledger, l': Ledger, o: OwnerId, state: OwnerState) {
    && l'.operations - l.operations
       == |state.creates| + |state.preflights| - |OwnerAt(l, o).creates| - |OwnerAt(l, o).preflights|
    && l'.releases - l.releases
       == (if state.release.Some? then 1 else 0) - (if OwnerAt(l, o).release.Some? then 1 else 0)
    && l'.operations <= MAX_OWNER_OPERATION_LEASES && l'.releases <= MAX_CONCURRENT_OWNER_RELEASES
  }

  lemma OwnerStepExact(l: Ledger, l': Ledger, o: OwnerId, state: OwnerState)
    requires Exact(l) && SameSessions(l, l') && OnlyOwner(l, l', o, state) && OwnerCountersMove(l, l', o, state)
    ensures Exact(l')
  {
    OwnerReplaced(l, l', o, state);
    ReleasingReplaced(l, l', o, state);
    assert CountedTable(l') == CountedTable(l);
  }

  lemma OwnerStepShape(l: Ledger, l': Ledger, o: OwnerId, state: OwnerState)
    requires OwnersOk(l) && SessionsOk(l) && ClaimsOk(l) && SameSessions(l, l') && OnlyOwner(l, l', o, state)
    requires OwnerOk(state, l'.nextToken)
    ensures OwnersOk(l') && SessionsOk(l') && ClaimsOk(l')
  {
    forall x ensures OwnerOk(OwnerAt(l', x), l'.nextToken) {
      assert OwnerOk(OwnerAt(l, x), l.nextToken);
    }
    forall s ensures SessionOk(LeasesAt(l', s), l'.nextToken) {
      assert SessionOk(LeasesAt(l, s), l.nextToken);
      assert LeasesAt(l', s) == LeasesAt(l, s);
    }
    forall s | s in l'.claims ensures Backed(l'.claims[s], LeasesAt(l', s)) {
      assert LeasesAt(l', s) == LeasesAt(l, s);
    }
  }

  /**
   A ledger that differs in one owner's well-fenced state keeps the invariant when its counters move with that state.
   */
  lemma OwnerStep(l: Ledger, l': Ledger, o: OwnerId, state: OwnerState)
    requires Inv(l) && SameSessions(l, l') && l'.owners == WithOwner(l.owners, o, state)
    requires OwnerOk(state, l'.nextToken) && OwnerCountersMove(l, l', o, state)
    ensures Inv(l')
  {
    assert OnlyOwner(l, l', o, state) by { WithOwnerOnly(l, l', o, state); }
    OwnerStepExact(l, l', o, state);
    OwnerStepShape(l, l', o, state);
    WithOwnerNotIdle(l, l', o, state);
  }

  ghost predicate OnlySession(l: Ledger, l': Ledger, s: SessionId, at: map<Token, SessionLease>) {
    && LeasesAt(l', s) == at
    && forall x :: x != s ==> LeasesAt(l', x) == LeasesAt(l, x)
  }

  lemma WithLeasesOnly(l: Ledger, l': Ledger, s: SessionId, at: map<Token, SessionLease>)
    requires l'.leases == WithLeases(l.leases, s, at)
    ensures OnlySession(l, l', s, at)
  {}

  lemma WithLeasesNotIdle(l: Ledger, l': Ledger, s: SessionId, at: map<Token, SessionLease>)
    requires NoneIdle(l) && l'.owners == l.owners && l'.leases == WithLeases(l.leases, s, at)
    ensures NoneIdle(l')
  {}

  ghost predicate SameOwners(l: Ledger, l': Ledger) {
    l'.owners == l.owners && l'.releases == l.releases && l'.nextToken >= l.nextToken
  }

  ghost predicate SessionCountersMove(l: Ledger, l': Ledger, s: SessionId, at: map<Token, SessionLease>) {
    && l'.sessions - l.sessions == |at| - |LeasesAt(l, s)|
    && l'.operations - l.operations == |CountedRow(at)| - |CountedRow(LeasesAt(l, s))|
    && l'.operations <= MAX_OWNER_OPERATION_LEASES
  }

  lemma SessionStepExact(l: Ledger, l': Ledger, s: SessionId, at: map<Token, SessionLease>)
    requires Exact(l) && SameOwners(l, l') && OnlySession(l, l', s, at) && SessionCountersMove(l, l', s, at)
    ensures Exact(l')
  {
    LeasesReplaced(l, l', s, at);
    assert CreateTable(l') == CreateTable(l) && PreflightTable(l') == PreflightTable(l)
           && Releasing(l') == Releasing(l);
  }

  /** The session's own claim survives only if the new leases back it; every other session's claim stays as it was. */
  ghost predicate ClaimsFollow(l: Ledger, l': Ledger, s: SessionId, at: map<Token, SessionLease>) {
    && (l'.claims == l.claims || l'.claims == l.claims - {s})
    && (s in l'.claims ==> Backed(l'.claims[s], at))
  }

  lemma SessionStepShape(l: Ledger, l': Ledger, s: SessionId, at: map<Token, SessionLease>)
    requires OwnersOk(l) && SessionsOk(l) && ClaimsOk(l) && SameOwners(l, l') && OnlySession(l, l', s, at)
    requires SessionOk(at, l'.nextToken) && ClaimsFollow(l, l', s, at)
    ensures OwnersOk(l') && SessionsOk(l') && ClaimsOk(l')
  {
    forall o ensures OwnerOk(OwnerAt(l', o), l'.nextToken) {
      assert OwnerOk(OwnerAt(l, o), l.nextToken);
      assert OwnerAt(l', o) == OwnerAt(l, o);
    }
    forall x ensures SessionOk(LeasesAt(l', x), l'.nextToken) {
      assert SessionOk(LeasesAt(l, x), l.nextToken);
    }
    forall x | x in l'.claims ensures Backed(l'.claims[x], LeasesAt(l', x)) {
      assert x != s ==> x in l.claims && Backed(l.claims[x], LeasesAt(l, x));
    }
  }

  /** A ledger that differs in one session's well-locked leases keeps the invariant when its counters move with them. */
  lemma SessionStep(l: Ledger, l': Ledger, s: SessionId, at: map<Token, SessionLease>)
    requires Inv(l) && SameOwners(l, l') && l'.leases == WithLeases(l.leases, s, at)
    requires SessionOk(at, l'.nextToken) && SessionCountersMove(l, l', s, at) && ClaimsFollow(l, l', s, at)
    ensures Inv(l')
  {
    assert OnlySession(l, l', s, at) by { WithLeasesOnly(l, l', s, at); }
    SessionStepExact(l, l', s, at);
    SessionStepShape(l, l', s, at);
    WithLeasesNotIdle(l, l', s, at);
  }

  lemma BeginCreateKeeps(l: Ledger, o: OwnerId)
    requires Inv(l)
    ensures Inv(After(l, BeginCreate(l, o)))
  {
    var state := OwnerAt(l, o);
    if BeginCreate(l, o).Admitted? {
      assert OwnerOk(state, l.nextToken);
      assert |state.creates[l.nextToken := None]| == |state.creates| + 1;
      OwnerStep(l, BeginCreate(l, o).ledger, o, state.(creates := state.creates[l.nextToken := None]));
    }
  }

  lemma BeginReleaseKeeps(l: Ledger, o: OwnerId)
    requires Inv(l)
    ensures Inv(After(l, BeginRelease(l, o)))
  {
    var state := OwnerAt(l, o);
    if BeginRelease(l, o).Admitted? {
      assert OwnerOk(state, l.nextToken);
      assert Retire(state.preflights).Keys == state.preflights.Keys;
      assert |Retire(state.preflights)| == |state.preflights|;
      OwnerStep(l, BeginRelease(l, o).ledger, o,
                OwnerState(state.creates, Retire(state.preflights), Some(Release(l.nextToken, state.creates))));
    }
  }

  lemma FinishOwnerKeeps(l: Ledger, lease: OwnerLease)
    requires Inv(l)
    ensures Inv(FinishOwner(l, lease))
  {
    var state := OwnerAt(l, lease.ownerId);
    if OwnerRequestCurrent(l, lease) {
      assert OwnerOk(state, l.nextToken);
      if lease.CreateLease? {
        Shrink(state.creates, lease.token);
        OwnerStep(l, FinishOwner(l, lease), lease.ownerId, state.(creates := state.creates - {lease.token}));
      } else {
        OwnerStep(l, FinishOwner(l, lease), lease.ownerId, state.(release := None));
      }
    }
  }

  lemma BeginPreflightKeeps(l: Ledger, o: OwnerId, s: SessionId)
    requires Inv(l)
    ensures Inv(After(l, BeginPreflight(l, o, s)))
  {
    var state := OwnerAt(l, o);
    if BeginPreflight(l, o, s).Admitted? {
      assert OwnerOk(state, l.nextToken);
      var entry := Preflight(BeginPreflight(l, o, s).lease, false);
      assert |state.preflights[l.nextToken := entry]| == |state.preflights| + 1;
      OwnerStep(l, BeginPreflight(l, o, s).ledger, o, state.(preflights := state.preflights[l.nextToken := entry]));
    }
  }

  lemma FinishPreflightKeeps(l: Ledger, p: PreflightLease)
    requires Inv(l)
    ensures Inv(FinishPreflight(l, p))
  {
    var state := OwnerAt(l, p.ownerId);
    if PreflightStored(l, p) {
      assert OwnerOk(state, l.nextToken);
      Shrink(state.preflights, p.token);
      OwnerStep(l, FinishPreflight(l, p), p.ownerId, state.(preflights := state.preflights - {p.token}));
    }
  }

  lemma Shrink<V>(m: map<Token, V>, t: Token)
    requires t in m
    ensures |m - {t}| == |m| - 1
  {
    assert (m - {t}).Keys == m.Keys - {t};
    assert |m.Keys - {t}| == |m.Keys| - 1;
  }

  lemma ReadersAreShared(at: map<Token, SessionLease>, next: Token, claims: map<SessionId, Claim>, s: SessionId,
                         mode: Mode)
    requires SessionOk(at, next) && (s in claims ==> Backed(claims[s], at)) && Compatible(at, mode)
    ensures s !in claims
  {}

  lemma LockedAfter(at: map<Token, SessionLease>, t: Token, lease: SessionLease, next: Token)
    requires SessionOk(at, next) && t >= next && Compatible(at, lease.mode)
             && ModeOf(lease.operation) == Some(lease.mode)
    ensures SessionOk(at[t := lease], t + 1)
    ensures |at[t := lease]| == |at| + 1
    ensures |CountedRow(at[t := lease])| == |CountedRow(at)| + if lease.countsOperation then 1 else 0
  {
    assert CountedRow(at[t := lease]) == if lease.countsOperation then CountedRow(at)[t := lease] else CountedRow(at);
  }

  lemma BeginSessionKeeps(l: Ledger, m: Method, s: Option<SessionId>, o: OwnerId,
                          request: Option<OwnerLease>, transfer: Option<PreflightLease>)
    requires Inv(l) && NeedsLease(m, s)
    ensures Inv(After(l, BeginSession(l, m, s, o, request, transfer)))
  {
    var outcome := BeginSession(l, m, s, o, request, transfer);
    if outcome.Admitted? {
      var id := s.value;
      var at := LeasesAt(l, id);
      var lease := LeasesAt(outcome.ledger, id)[l.nextToken];
      var rest := l;
      if Transferred(l, m, id, o, request, transfer) {
        rest := FinishPreflight(l, transfer.value);
        FinishPreflightKeeps(l, transfer.value);
      }
      assert SessionOk(at, l.nextToken);
      LockedAfter(at, l.nextToken, lease, l.nextToken);
      ReadersAreShared(at, l.nextToken, l.claims, id, lease.mode);
      SessionStep(rest, outcome.ledger, id, at[l.nextToken := lease]);
    }
  }

  lemma BoundRow(at: map<Token, SessionLease>, t: Token, p: Protocol)
    requires t in at
    ensures var bound := at[t := at[t].(protocol := Some(p))];
            |bound| == |at| && |CountedRow(bound)| == |CountedRow(at)|
  {
    var bound := at[t := at[t].(protocol := Some(p))];
    assert bound.Keys == at.Keys;
    assert CountedRow(bound).Keys == CountedRow(at).Keys;
    assert |CountedRow(bound)| == |CountedRow(bound).Keys| && |CountedRow(at)| == |CountedRow(at).Keys|;
    assert |bound| == |bound.Keys| && |at| == |at.Keys|;
  }

  lemma BoundOk(at: map<Token, SessionLease>, t: Token, p: Protocol, next: Token)
    requires t in at && SessionOk(at, next)
    ensures SessionOk(at[t := at[t].(protocol := Some(p))], next)
  {}

  lemma BoundClaimFollows(l: Ledger, h: SessionHandle, p: Protocol, durable: Option<OwnerId>)
    requires ClaimsOk(l) && BindProtocol(l, h, p, durable).Admitted?
    ensures var at := LeasesAt(l, h.sessionId);
            ClaimsFollow(l, BindProtocol(l, h, p, durable).ledger, h.sessionId,
                         at[h.token := at[h.token].(protocol := Some(p))])
  {
    assert h.sessionId in l.claims ==> Backed(l.claims[h.sessionId], LeasesAt(l, h.sessionId));
  }

  lemma BoundMoves(l: Ledger, h: SessionHandle, p: Protocol, durable: Option<OwnerId>)
    requires Exact(l) && SessionsOk(l) && BindProtocol(l, h, p, durable).Admitted?
    ensures var l' := BindProtocol(l, h, p, durable).ledger; var at := LeasesAt(l, h.sessionId);
            var bound := at[h.token := at[h.token].(protocol := Some(p))];
            SessionOk(bound, l'.nextToken) && SessionCountersMove(l, l', h.sessionId, bound)
  {
    var at := LeasesAt(l, h.sessionId);
    assert SessionOk(at, l.nextToken);
    BoundRow(at, h.token, p);
    BoundOk(at, h.token, p, l.nextToken);
  }

  lemma BindProtocolKeeps(l: Ledger, h: SessionHandle, p: Protocol, durable: Option<OwnerId>)
    requires Inv(l)
    ensures Inv(After(l, BindProtocol(l, h, p, durable)))
  {
    if BindProtocol(l, h, p, durable).Admitted? {
      var at := LeasesAt(l, h.sessionId);
      BoundMoves(l, h, p, durable);
      BoundClaimFollows(l, h, p, durable);
      SessionStep(l, BindProtocol(l, h, p, durable).ledger, h.sessionId,
                  at[h.token := at[h.token].(protocol := Some(p))]);
    }
  }

  lemma UnlockedRow(at: map<Token, SessionLease>, t: Token)
    requires t in at
    ensures |at - {t}| == |at| - 1
    ensures |CountedRow(at - {t})| == |CountedRow(at)| - if at[t].countsOperation then 1 else 0
  {
    Shrink(at, t);
    assert CountedRow(at - {t}) == CountedRow(at) - {t};
    if at[t].countsOperation { Shrink(CountedRow(at), t); } else { assert CountedRow(at) - {t} == CountedRow(at); }
  }

  lemma UnlockedOk(at: map<Token, SessionLease>, t: Token, next: Token)
    requires t in at && SessionOk(at, next)
    ensures SessionOk(at - {t}, next)
  {}

  lemma FinishSessionKeeps(l: Ledger, h: SessionHandle)
    requires Inv(l)
    ensures Inv(FinishSession(l, h))
  {
    var at := LeasesAt(l, h.sessionId);
    if LeaseHeld(l, h) {
      var l' := FinishSession(l, h);
      assert SessionOk(at, l.nextToken);
      UnlockedRow(at, h.token);
      UnlockedOk(at, h.token, l.nextToken);
      assert h.sessionId in l.claims ==> Backed(l.claims[h.sessionId], at);
      assert h.sessionId !in l'.claims;
      SessionStep(l, l', h.sessionId, at - {h.token});
    }
  }

  lemma ClaimedExact(l: Ledger, l': Ledger)
    requires Exact(l) && l' == l.(claims := l'.claims)
    ensures Exact(l')
  {
    assert CreateTable(l') == CreateTable(l) && PreflightTable(l') == PreflightTable(l)
           && CountedTable(l') == CountedTable(l);
    assert Releasing(l') == Releasing(l);
  }

  lemma ClaimedOk(l: Ledger, l': Ledger, s: SessionId, claim: Claim)
    requires OwnersOk(l) && SessionsOk(l) && ClaimsOk(l)
    requires l' == l.(claims := l.claims[s := claim]) && Backed(claim, LeasesAt(l, s))
    ensures OwnersOk(l') && SessionsOk(l') && ClaimsOk(l')
  {
    forall o ensures OwnerOk(OwnerAt(l', o), l'.nextToken) {
      assert OwnerAt(l', o) == OwnerAt(l, o);
    }
    forall x ensures SessionOk(LeasesAt(l', x), l'.nextToken) {
      assert LeasesAt(l', x) == LeasesAt(l, x);
    }
    forall x | x in l'.claims ensures Backed(l'.claims[x], LeasesAt(l', x)) {
      assert LeasesAt(l', x) == LeasesAt(l, x);
    }
  }

  lemma ClaimedKeeps(l: Ledger, l': Ledger, s: SessionId, claim: Claim)
    requires Inv(l) && l' == l.(claims := l.claims[s := claim]) && Backed(claim, LeasesAt(l, s))
    ensures Inv(l')
  {
    ClaimedExact(l, l');
    ClaimedOk(l, l', s, claim);
  }

  /** The owner's part of a claim: the create, and the release that grandfathered it, record the session. */
  lemma ClaimedOwner(l: Ledger, h: SessionHandle)
    requires Inv(l) && ClaimSession(l, h).Admitted?
    ensures var o := LeasesAt(l, h.sessionId)[h.token].ownerId; var l' := ClaimSession(l, h).ledger;
            && l'.owners == WithOwner(l.owners, o, OwnerAt(l', o)) && OwnerOk(OwnerAt(l', o), l.nextToken)
            && |OwnerAt(l', o).creates| == |OwnerAt(l, o).creates|
               && OwnerAt(l', o).preflights == OwnerAt(l, o).preflights
            && OwnerAt(l', o).release.Some? == OwnerAt(l, o).release.Some?
  {
    var o := LeasesAt(l, h.sessionId)[h.token].ownerId;
    var state, claimed := OwnerAt(l, o), OwnerAt(ClaimSession(l, h).ledger, o);
    assert OwnerOk(state, l.nextToken);
    assert claimed.creates.Keys == state.creates.Keys && |claimed.creates| == |claimed.creates.Keys|;
  }

  lemma ClaimKeeps(l: Ledger, h: SessionHandle)
    requires Inv(l)
    ensures Inv(After(l, ClaimSession(l, h)))
  {
    if ClaimSession(l, h).Admitted? {
      var l' := ClaimSession(l, h).ledger;
      var o := LeasesAt(l, h.sessionId)[h.token].ownerId;
      ClaimedOwner(l, h);
      var rest := l'.(claims := l.claims);
      OwnerStep(l, rest, o, OwnerAt(l', o));
      ClaimBacked(l, h);
      ClaimedKeeps(rest, l', h.sessionId, l'.claims[h.sessionId]);
    }
  }

  lemma ClaimBacked(l: Ledger, h: SessionHandle)
    requires Inv(l) && ClaimSession(l, h).Admitted?
    ensures Backed(ClaimSession(l, h).ledger.claims[h.sessionId], LeasesAt(l, h.sessionId))
  {
    assert SessionOk(LeasesAt(l, h.sessionId), l.nextToken);
  }

  lemma ApplyKeeps(l: Ledger, op: Op)
    requires Inv(l)
    ensures Inv(Apply(l, op))
  {
    match op
    case OpBeginCreate(o) => BeginCreateKeeps(l, o);
    case OpBeginRelease(o) => BeginReleaseKeeps(l, o);
    case OpFinishOwner(lease) => FinishOwnerKeeps(l, lease);
    case OpBeginPreflight(o, s) => BeginPreflightKeeps(l, o, s);
    case OpFinishPreflight(p) => FinishPreflightKeeps(l, p);
    case OpBeginSession(m, s, o, request, transfer) =>
      if NeedsLease(m, s) { BeginSessionKeeps(l, m, s, o, request, transfer); }
    case OpClaim(h) => ClaimKeeps(l, h);
    case OpBind(h, p, durable) => BindProtocolKeeps(l, h, p, durable);
    case OpFinishSession(h) => FinishSessionKeeps(l, h);
  }

  lemma {:induction false} RunKeeps(l: Ledger, ops: seq<Op>)
    requires Inv(l)
    ensures Inv(Run(l, ops))
    decreases |ops|
  {
    if ops != [] {
      ApplyKeeps(l, ops[0]);
      RunKeeps(Apply(l, ops[0]), ops[1..]);
    }
  }

  // ------------------------------------------------------------- every run

  lemma EmptyInv()
    ensures Inv(EMPTY)
  {
    assert CreateTable(EMPTY) == map[] && PreflightTable(EMPTY) == map[] && CountedTable(EMPTY) == map[];
    assert Creates(EMPTY) == {} && Preflights(EMPTY) == {} && Counted(EMPTY) == {} && Leases(EMPTY) == {}
           && Releasing(EMPTY) == {};
  }

  /** After any run the counters say exactly what is in flight, within the bounds, and idle means idle. */
  lemma LedgerIsExact(ops: seq<Op>)
    ensures var l := Run(EMPTY, ops);
            && l.operations == |Creates(l)| + |Preflights(l)| + |Counted(l)| <= MAX_OWNER_OPERATION_LEASES
            && l.releases == |Releasing(l)| <= MAX_CONCURRENT_OWNER_RELEASES
            && l.sessions == |Leases(l)|
            && (l.operations + l.releases == 0 <==> l.owners == map[] && Counted(l) == {})
  {
    EmptyInv();
    RunKeeps(EMPTY, ops);
    IdleIsEmpty(Run(EMPTY, ops));
  }

  lemma IdleIsEmpty(l: Ledger)
    requires Inv(l)
    ensures l.operations + l.releases == 0 <==> l.owners == map[] && Counted(l) == {}
  {
    if l.operations + l.releases == 0 {
      assert Creates(l) == {} && Preflights(l) == {} && Counted(l) == {} && Releasing(l) == {};
      forall o ensures o !in l.owners { if o in l.owners { OwnerIsBusy(l, o); } }
    } else if l.owners == map[] {
      assert CreateTable(l) == map[] && PreflightTable(l) == map[];
      assert Creates(l) == {} && Preflights(l) == {} && Releasing(l) == {};
    }
  }

  lemma OwnerIsBusy(l: Ledger, o: OwnerId)
    requires NoneIdle(l) && o in l.owners
    ensures Creates(l) != {} || Preflights(l) != {} || Releasing(l) != {}
  {
    var state := l.owners[o];
    if t :| t in state.creates {
      assert t in CreateTable(l)[o] && (o, t) in Creates(l);
    } else if t :| t in state.preflights {
      assert t in PreflightTable(l)[o] && (o, t) in Preflights(l);
    } else {
      assert state.creates == map[] && state.preflights == map[];
      assert o in Releasing(l);
    }
  }

  /** After any run, two leases on one session are both shared, and a claim is its session's sole lease. */
  lemma LedgerIsReadersWriterLock(ops: seq<Op>, s: SessionId, t: Token, u: Token)
    requires var l := Run(EMPTY, ops); t in LeasesAt(l, s) && u in LeasesAt(l, s) && t != u
    ensures var l := Run(EMPTY, ops); LeasesAt(l, s)[t].mode.Shared? && LeasesAt(l, s)[u].mode.Shared? && s !in l.claims
  {
    EmptyInv();
    RunKeeps(EMPTY, ops);
    assert SessionOk(LeasesAt(Run(EMPTY, ops), s), Run(EMPTY, ops).nextToken);
  }

  lemma ClaimIsBacked(ops: seq<Op>, s: SessionId)
    requires s in Run(EMPTY, ops).claims
    ensures var l := Run(EMPTY, ops); Backed(l.claims[s], LeasesAt(l, s))
    ensures var l := Run(EMPTY, ops); s !in FinishSession(l, SessionHandle(s, l.claims[s].token)).claims
  {
    EmptyInv();
    RunKeeps(EMPTY, ops);
  }

  /** Finishing anything twice is finishing it once. */
  lemma FinishTwice(l: Ledger, owner: OwnerLease, p: PreflightLease, h: SessionHandle)
    ensures FinishOwner(FinishOwner(l, owner), owner) == FinishOwner(l, owner)
    ensures FinishPreflight(FinishPreflight(l, p), p) == FinishPreflight(l, p)
    ensures FinishSession(FinishSession(l, h), h) == FinishSession(l, h)
  {
    assert !OwnerRequestCurrent(FinishOwner(l, owner), owner);
    assert !PreflightStored(FinishPreflight(l, p), p);
    assert !LeaseHeld(FinishSession(l, h), h);
  }

  // --------------------------------------------------------- the release fence

  /** A lease a fenced owner may still be granted: the release's own, or that of a create in `state`. */
  ghost predicate Allowed(lease: SessionLease, state: OwnerState) {
    lease.operation.ReleaseSession?
    || (lease.operation.Create? && lease.ownerRequestToken.Some? && lease.ownerRequestToken.value in state.creates)
  }

  ghost predicate SameGrant(lease: SessionLease, was: SessionLease) { lease == was.(protocol := lease.protocol) }

  /** The owner's creates and preflights only leave, and its list of grandfathered creates stands. */
  ghost predicate OwnerShrinks(was: OwnerState, now: OwnerState) {
    && now.creates.Keys <= was.creates.Keys
    && now.preflights.Keys <= was.preflights.Keys
    && now.release.Some? && was.release.Some?
    && now.release.value.grandfathered.Keys == was.release.value.grandfathered.Keys
  }

  /** A lease of the owner on this session is one it already had, or an allowed one. */
  ghost predicate RowFenced(was: map<Token, SessionLease>, now: map<Token, SessionLease>, o: OwnerId,
                            state: OwnerState) {
    forall t <- now :: (t in was && SameGrant(now[t], was[t])) || (now[t].ownerId == o ==> Allowed(now[t], state))
  }

  /** What the fence around owner `o` keeps between two states of one release. */
  ghost predicate FenceHolds(l: Ledger, l': Ledger, o: OwnerId) {
    && OwnerShrinks(OwnerAt(l, o), OwnerAt(l', o))
    && forall s :: RowFenced(LeasesAt(l, s), LeasesAt(l', s), o, OwnerAt(l, o))
  }

  lemma FenceTransitive(a: Ledger, b: Ledger, c: Ledger, o: OwnerId)
    requires FenceHolds(a, b, o) && FenceHolds(b, c, o)
    ensures FenceHolds(a, c, o)
  {
    forall s ensures RowFenced(LeasesAt(a, s), LeasesAt(c, s), o, OwnerAt(a, o)) {
      assert RowFenced(LeasesAt(a, s), LeasesAt(b, s), o, OwnerAt(a, o));
      assert RowFenced(LeasesAt(b, s), LeasesAt(c, s), o, OwnerAt(b, o));
    }
  }

  /** A step never makes an ended release active again. */
  lemma ReleaseStaysEnded(l: Ledger, op: Op, o: OwnerId, r: Token)
    requires r < l.nextToken && !ReleaseActive(l, o, r)
    ensures !ReleaseActive(Apply(l, op), o, r)
  {}

  lemma TokensGrow(l: Ledger, op: Op)
    ensures l.nextToken <= Apply(l, op).nextToken
  {}

  lemma FenceOwnerClaim(l: Ledger, h: SessionHandle, o: OwnerId)
    requires OwnerOk(OwnerAt(l, o), l.nextToken) && OwnerAt(l, o).release.Some?
    ensures OwnerShrinks(OwnerAt(l, o), OwnerAt(After(l, ClaimSession(l, h)), o))
  {}

  lemma FenceOwnerSession(l: Ledger, m: Method, s: Option<SessionId>, x: OwnerId, request: Option<OwnerLease>,
                          transfer: Option<PreflightLease>, o: OwnerId)
    requires OwnerOk(OwnerAt(l, o), l.nextToken) && OwnerAt(l, o).release.Some? && NeedsLease(m, s)
    ensures OwnerShrinks(OwnerAt(l, o), OwnerAt(After(l, BeginSession(l, m, s, x, request, transfer)), o))
  {}

  lemma FenceOwner(l: Ledger, op: Op, o: OwnerId, r: Token)
    requires OwnersOk(l) && ReleaseActive(l, o, r) && ReleaseActive(Apply(l, op), o, r)
    ensures OwnerShrinks(OwnerAt(l, o), OwnerAt(Apply(l, op), o))
  {
    assert OwnerOk(OwnerAt(l, o), l.nextToken);
    match op
    case OpClaim(h) => FenceOwnerClaim(l, h, o);
    case OpBeginSession(m, s, x, request, transfer) => if NeedsLease(m, s) {
      FenceOwnerSession(l, m, s, x, request, transfer, o);
    }
    case _ =>
  }

  lemma FenceSession(l: Ledger, m: Method, s: Option<SessionId>, x: OwnerId, request: Option<OwnerLease>,
                     transfer: Option<PreflightLease>, o: OwnerId, at: SessionId)
    requires OwnerAt(l, o).release.Some? && NeedsLease(m, s)
    ensures RowFenced(LeasesAt(l, at), LeasesAt(After(l, BeginSession(l, m, s, x, request, transfer)), at), o,
                      OwnerAt(l, o))
  {
    var outcome := BeginSession(l, m, s, x, request, transfer);
    if outcome.Admitted? {
      assert LeasesAt(outcome.ledger, at) == if at == s.value
             then LeasesAt(l, at)[l.nextToken := LeasesAt(outcome.ledger, at)[l.nextToken]] else LeasesAt(l, at);
    }
  }

  lemma FenceRow(l: Ledger, op: Op, o: OwnerId, at: SessionId)
    requires OwnerAt(l, o).release.Some?
    ensures RowFenced(LeasesAt(l, at), LeasesAt(Apply(l, op), at), o, OwnerAt(l, o))
  {
    if op.OpBeginSession? && NeedsLease(op.operation, op.sessionId) {
      FenceSession(l, op.operation, op.sessionId, op.owner, op.request, op.transfer, o, at);
    }
  }

  /** Over any run that ends under the same release, the fence held throughout. */
  lemma {:induction false} FenceOverRun(l: Ledger, ops: seq<Op>, o: OwnerId, r: Token)
    requires Inv(l) && ReleaseActive(l, o, r) && ReleaseActive(Run(l, ops), o, r)
    ensures FenceHolds(l, Run(l, ops), o)
    ensures Fenced(OwnerAt(Run(l, ops), o))
    decreases |ops|
  {
    assert OwnerOk(OwnerAt(l, o), l.nextToken);
    if ops != [] {
      var next := Apply(l, ops[0]);
      ApplyKeeps(l, ops[0]);
      assert ReleaseActive(next, o, r) by {
        if !ReleaseActive(next, o, r) {
          TokensGrow(l, ops[0]);
          EndedOverRun(next, ops[1..], o, r);
        }
      }
      FenceOwner(l, ops[0], o, r);
      forall s ensures RowFenced(LeasesAt(l, s), LeasesAt(next, s), o, OwnerAt(l, o)) { FenceRow(l, ops[0], o, s); }
      FenceOverRun(next, ops[1..], o, r);
      FenceTransitive(l, next, Run(l, ops), o);
    }
  }

  lemma {:induction false} EndedOverRun(l: Ledger, ops: seq<Op>, o: OwnerId, r: Token)
    requires r < l.nextToken && !ReleaseActive(l, o, r)
    ensures !ReleaseActive(Run(l, ops), o, r)
    decreases |ops|
  {
    if ops != [] {
      TokensGrow(l, ops[0]);
      ReleaseStaysEnded(l, ops[0], o, r);
      EndedOverRun(Apply(l, ops[0]), ops[1..], o, r);
    }
  }

  /** A preflight that is no longer current: retired where it is stored, or gone for good. */
  ghost predicate Spent(l: Ledger, p: PreflightLease) { p.token < l.nextToken && !PreflightCurrent(l, p) }

  lemma SpentStays(l: Ledger, op: Op, p: PreflightLease)
    requires Spent(l, p)
    ensures Spent(Apply(l, op), p)
  {}

  /**
   A preflight an owner's release retired is refused as a lease in every later state, also after the release ended.
   */
  lemma {:induction false} RetiredNeverAdmits(l: Ledger, ops: seq<Op>, p: PreflightLease,
                                              m: Method, s: Option<SessionId>, o: OwnerId, request: Option<OwnerLease>)
    requires Spent(l, p) && NeedsLease(m, s)
    ensures Spent(Run(l, ops), p) && BeginSession(Run(l, ops), m, s, o, request, Some(p)).Refused?
    decreases |ops|
  {
    if ops != [] {
      SpentStays(l, ops[0], p);
      RetiredNeverAdmits(Apply(l, ops[0]), ops[1..], p, m, s, o, request);
    }
  }

  /** Beginning a release spends every preflight its owner has in flight. */
  lemma ReleaseSpends(l: Ledger, o: OwnerId, p: PreflightLease)
    requires Inv(l) && PreflightStored(l, p) && p.ownerId == o && BeginRelease(l, o).Admitted?
    ensures PreflightStored(BeginRelease(l, o).ledger, p) && Spent(BeginRelease(l, o).ledger, p)
  {
    assert OwnerOk(OwnerAt(l, o), l.nextToken);
  }
}
