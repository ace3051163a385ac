/** What admits, moves and ends each thing the admission ledger stores: both ways round, in every reachable state. */
module AdmissionEffects {
  import opened Options
  import opened Admission
  import opened AdmissionRuns
  import Text

  /** Operations that need the session for themselves. */
  predicate Exclusively(m: Method) {
    m == Create || m == Send || m == Stop || m == Subscribe || m == Unsubscribe || m == ReleaseSession
    || m == ReleaseTurn
  }

  /** Reads and configuration changes, which share a session. */
  predicate Sharing(m: Method) {
    m == Read || m == Resume || m == SetModel || m == UpdateRuntimeModelConfig || m == SetThoughtLevel
  }

  /** Everything that counts against the 256 operations. */
  ghost function InFlight(l: Ledger): nat { |Creates(l)| + |Preflights(l)| + |Counted(l)| }

  lemma Reached(ops: seq<Op>)
    ensures Inv(Run(EMPTY, ops))
  {
    EmptyInv();
    RunKeeps(EMPTY, ops);
  }

  // ------------------------------------------------------- admitting sessions

  /**
   In every reachable state an exclusive operation's lease is the only one of its session, and every other operation
   that takes a lease is refused there.
   */
  lemma ExclusiveIsAlone(ops: seq<Op>, s: SessionId, t: Token, m: Method, o: OwnerId, request: Option<OwnerLease>,
                         transfer: Option<PreflightLease>)
    requires var l := Run(EMPTY, ops); t in LeasesAt(l, s) && Exclusively(LeasesAt(l, s)[t].operation)
    requires Exclusively(m) || Sharing(m)
    ensures LeasesAt(Run(EMPTY, ops), s).Keys == {t}
    ensures NeedsLease(m, Some(s)) && BeginSession(Run(EMPTY, ops), m, Some(s), o, request, transfer).Refused?
  {
    var l := Run(EMPTY, ops);
    Reached(ops);
    AloneIn(l, s, t);
    assert t in LeasesAt(l, s);
    CompatibleIff(l, m, s);
  }

  lemma AloneIn(l: Ledger, s: SessionId, t: Token)
    requires Inv(l) && t in LeasesAt(l, s) && Exclusively(LeasesAt(l, s)[t].operation)
    ensures LeasesAt(l, s).Keys == {t} && !Sharing(LeasesAt(l, s)[t].operation)
  {
    assert SessionOk(LeasesAt(l, s), l.nextToken);
    assert LeasesAt(l, s)[t].mode.Exclusive?;
  }

  predicate AllSharing(at: map<Token, SessionLease>) { forall t <- at :: Sharing(at[t].operation) }

  /** The leases of a session let this operation in. */
  ghost predicate LeasesAllow(l: Ledger, m: Method, s: SessionId) {
    if Exclusively(m) then LeasesAt(l, s) == map[]
    else AllSharing(LeasesAt(l, s))
  }

  lemma CompatibleIff(l: Ledger, m: Method, s: SessionId)
    requires Inv(l) && (Exclusively(m) || Sharing(m))
    ensures ModeOf(m).Some? && (Compatible(LeasesAt(l, s), ModeOf(m).value) <==> LeasesAllow(l, m, s))
  {
    assert SessionOk(LeasesAt(l, s), l.nextToken);
    forall t <- LeasesAt(l, s)
      ensures LeasesAt(l, s)[t].mode.Shared? <==> Sharing(LeasesAt(l, s)[t].operation)
    {
      assert ModeOf(LeasesAt(l, s)[t].operation) == Some(LeasesAt(l, s)[t].mode);
      ModesAre(LeasesAt(l, s)[t].operation);
    }
    ModesAre(m);
  }

  lemma ModesAre(m: Method)
    ensures Exclusively(m) <==> ModeOf(m) == Some(Exclusive)
    ensures Sharing(m) <==> ModeOf(m) == Some(Shared)
  {}

  /** A create that comes with an owner request still in flight. */
  ghost predicate CountedAlready(l: Ledger, m: Method, request: Option<OwnerLease>) {
    && m == Create && request.Some?
    && match request.value
       case CreateLease(x, c) => (x, c) in Creates(l)
       case ReleaseLease(x, r) => x in Releasing(l) && l.owners[x].release.value.token == r
  }

  /** A create of this owner that is still in flight. */
  ghost predicate OwnCreate(l: Ledger, m: Method, o: OwnerId, request: Option<OwnerLease>) {
    m == Create && request.Some? && request.value.CreateLease? && (o, request.value.token) in Creates(l)
    && request.value.ownerId == o
  }

  /** This very preflight is stored and no release of its owner has begun since. */
  ghost predicate Standing(l: Ledger, p: PreflightLease) {
    (p.ownerId, p.token) in Preflights(l) && l.owners[p.ownerId].preflights[p.token] == Preflight(p, false)
  }

  /** A session request that must be admitted, and no other may be. */
  ghost predicate MayBegin(l: Ledger, m: Method, s: Option<SessionId>, o: OwnerId, request: Option<OwnerLease>,
                           transfer: Option<PreflightLease>) {
    && s.Some? && Text.SafeIdentifier(s.value) && LeasesAllow(l, m, s.value)
    && (m == ReleaseSession || o !in Releasing(l)
        || OwnCreate(l, m, o, request))
    && (transfer.Some? ==>
          && !CountedAlready(l, m, request) && transfer.value.ownerId == o && transfer.value.sessionId == s.value
          && Standing(l, transfer.value))
    && (CountedAlready(l, m, request) || transfer.Some? || InFlight(l) < MAX_OWNER_OPERATION_LEASES)
  }

  lemma CreateIn(l: Ledger, o: OwnerId, c: Token)
    ensures (o, c) in Creates(l) <==> c in OwnerAt(l, o).creates
  {
    if c in OwnerAt(l, o).creates { assert c in CreateTable(l)[o]; }
  }

  lemma PreflightIn(l: Ledger, o: OwnerId, c: Token)
    ensures (o, c) in Preflights(l) <==> c in OwnerAt(l, o).preflights
  {
    if c in OwnerAt(l, o).preflights { assert c in PreflightTable(l)[o]; }
  }

  lemma PairedIff(l: Ledger, m: Method, request: Option<OwnerLease>)
    ensures Paired(l, m, request) <==> CountedAlready(l, m, request)
  {
    if request.Some? { CreateIn(l, request.value.ownerId, request.value.token); }
  }

  lemma StandingIff(l: Ledger, p: PreflightLease)
    ensures PreflightCurrent(l, p) <==> Standing(l, p)
  {
    PreflightIn(l, p.ownerId, p.token);
  }

  /** While an owner is released, any create of it still in flight is grandfathered. */
  lemma GrandfatheredIff(l: Ledger, m: Method, o: OwnerId, request: Option<OwnerLease>)
    requires Inv(l)
    ensures OwnerAt(l, o).release.Some? ==>
              (Grandfathered(l, m, o, request) <==>
                 OwnCreate(l, m, o, request))
  {
    assert OwnerOk(OwnerAt(l, o), l.nextToken);
    if request.Some? { CreateIn(l, o, request.value.token); }
  }

  /** The part of the checks that the owner and its requests decide. */
  lemma AdmissibleIff(l: Ledger, m: Method, s: SessionId, o: OwnerId, request: Option<OwnerLease>,
                      transfer: Option<PreflightLease>)
    requires Inv(l) && (Exclusively(m) || Sharing(m)) && NeedsLease(m, Some(s))
    ensures SessionAdmissible(l, m, Some(s), o, request, transfer) <==>
              && Text.SafeIdentifier(s) && LeasesAllow(l, m, s)
              && (m == ReleaseSession || o !in Releasing(l) || OwnCreate(l, m, o, request))
              && (transfer.Some? ==> Transferred(l, m, s, o, request, transfer))
  {
    CompatibleIff(l, m, s);
    GrandfatheredIff(l, m, o, request);
    ReleasingAt(l, o);
  }

  lemma TransferredIff(l: Ledger, m: Method, s: SessionId, o: OwnerId, request: Option<OwnerLease>,
                       transfer: Option<PreflightLease>)
    ensures Transferred(l, m, s, o, request, transfer) <==>
              && transfer.Some? && !CountedAlready(l, m, request) && transfer.value.ownerId == o
              && transfer.value.sessionId == s && Standing(l, transfer.value)
  {
    PairedIff(l, m, request);
    if transfer.Some? { StandingIff(l, transfer.value); }
  }

  /** In every reachable state a session request is admitted exactly when it may begin. */
  lemma SessionBeginsIff(ops: seq<Op>, m: Method, s: Option<SessionId>, o: OwnerId, request: Option<OwnerLease>,
                         transfer: Option<PreflightLease>)
    requires Exclusively(m) || Sharing(m)
    ensures NeedsLease(m, s) <==> !(m == Create && s.None?)
    ensures NeedsLease(m, s) ==>
              var l := Run(EMPTY, ops);
              (BeginSession(l, m, s, o, request, transfer).Admitted? <==> MayBegin(l, m, s, o, request, transfer))
  {
    var l := Run(EMPTY, ops);
    Reached(ops);
    if s.Some? {
      SessionMayBegin(l, m, s.value, o, request, transfer);
    }
  }

  lemma SessionMayBegin(l: Ledger, m: Method, s: SessionId, o: OwnerId, request: Option<OwnerLease>,
                        transfer: Option<PreflightLease>)
    requires Inv(l) && (Exclusively(m) || Sharing(m))
    ensures NeedsLease(m, Some(s))
    ensures BeginSession(l, m, Some(s), o, request, transfer).Admitted? <==>
            MayBegin(l, m, Some(s), o, request, transfer)
  {
    AdmissibleIff(l, m, s, o, request, transfer);
    TransferredIff(l, m, s, o, request, transfer);
    PairedIff(l, m, request);
  }

  /** So a read or a configuration request is never refused for the leases of others of its kind. */
  lemma ReadersShare(ops: seq<Op>, m: Method, s: SessionId, o: OwnerId)
    requires Sharing(m)
    requires AllSharing(LeasesAt(Run(EMPTY, ops), s))
    ensures NeedsLease(m, Some(s))
    ensures var l := Run(EMPTY, ops);
            BeginSession(l, m, Some(s), o, None, None).Admitted? <==>
            Text.SafeIdentifier(s) && o !in Releasing(l) && InFlight(l) < MAX_OWNER_OPERATION_LEASES
  {
    Reached(ops);
    ReaderMayBegin(Run(EMPTY, ops), m, s, o);
    SessionMayBegin(Run(EMPTY, ops), m, s, o, None, None);
  }

  lemma ReaderMayBegin(l: Ledger, m: Method, s: SessionId, o: OwnerId)
    requires Sharing(m) && AllSharing(LeasesAt(l, s))
    ensures MayBegin(l, m, Some(s), o, None, None) <==>
            Text.SafeIdentifier(s) && o !in Releasing(l) && InFlight(l) < MAX_OWNER_OPERATION_LEASES
  {}

  /** Listing, health and owner releases never take a session lease. */
  lemma LeaselessOperations(m: Method, s: Option<SessionId>)
    ensures !Exclusively(m) && !Sharing(m) <==> m == List || m == Health || m == ReleaseOwner
    ensures !Exclusively(m) && !Sharing(m) ==> !NeedsLease(m, s)
  {}

  // --------------------------------------- what one operation leaves of the rest

  predicate OfOwner(op: Op) {
    op.OpBeginCreate? || op.OpBeginRelease? || op.OpFinishOwner? || op.OpBeginPreflight? || op.OpFinishPreflight?
  }

  lemma OwnerKeepsSessions(l: Ledger, op: Op)
    requires OfOwner(op)
    ensures Apply(l, op).leases == l.leases && Apply(l, op).claims == l.claims
  {}

  lemma SessionKeepsOwners(l: Ledger, op: Op)
    requires op.OpBind? || op.OpFinishSession?
    ensures Apply(l, op).owners == l.owners
  {}

  lemma BegunSession(l: Ledger, m: Method, s: SessionId, o: OwnerId, request: Option<OwnerLease>,
                     transfer: Option<PreflightLease>, x: OwnerId)
    requires NeedsLease(m, Some(s)) && BeginSession(l, m, Some(s), o, request, transfer).Admitted?
    ensures var u := BeginSession(l, m, Some(s), o, request, transfer).ledger;
            && u.claims == l.claims && u.nextToken == l.nextToken + 1
            && OwnerAt(u, x) == if transfer.Some? && x == o
                                then OwnerAt(l, x).(preflights := OwnerAt(l, x).preflights - {transfer.value.token})
                                else OwnerAt(l, x)
  {}

  lemma BegunLeases(l: Ledger, m: Method, s: SessionId, o: OwnerId, request: Option<OwnerLease>,
                    transfer: Option<PreflightLease>, x: SessionId)
    requires NeedsLease(m, Some(s)) && BeginSession(l, m, Some(s), o, request, transfer).Admitted?
    ensures var u := BeginSession(l, m, Some(s), o, request, transfer).ledger;
            && (x != s ==> LeasesAt(u, x) == LeasesAt(l, x))
            && l.nextToken in LeasesAt(u, s)
            && LeasesAt(u, s) == LeasesAt(l, s)[l.nextToken := LeasesAt(u, s)[l.nextToken]]
            && LeaseOf(LeasesAt(u, s)[l.nextToken], l, m, o, request)
  {
    PairedIff(l, m, request);
  }

  lemma Claimed(l: Ledger, h: SessionHandle, x: OwnerId)
    requires ClaimSession(l, h).Admitted?
    ensures var u := ClaimSession(l, h).ledger; var lease := LeasesAt(l, h.sessionId)[h.token];
            && u.leases == l.leases && u.claims == l.claims[h.sessionId := Claim(h.token, lease.ownerId)]
            && OwnerAt(u, x).preflights == OwnerAt(l, x).preflights
            && OwnerAt(u, x).creates.Keys == OwnerAt(l, x).creates.Keys
            && OwnerAt(u, x).release.Some? == OwnerAt(l, x).release.Some?
            && (x != lease.ownerId ==> OwnerAt(u, x) == OwnerAt(l, x))
            && (x == lease.ownerId ==>
                  OwnerAt(u, x).creates == OwnerAt(l, x).creates[lease.ownerRequestToken.value := Some(h.sessionId)])
  {}

  lemma ClaimedRelease(l: Ledger, h: SessionHandle, x: OwnerId)
    requires ClaimSession(l, h).Admitted? && Fenced(OwnerAt(l, x))
    ensures var u := ClaimSession(l, h).ledger; var was, now := OwnerAt(l, x).release, OwnerAt(u, x).release;
            && now.Some? == was.Some?
            && (was.Some? ==>
                  && now.value.token == was.value.token && now.value.grandfathered.Keys == was.value.grandfathered.Keys
                  && forall c <- now.value.grandfathered ::
                       now.value.grandfathered[c] ==
                       if c in OwnerAt(u, x).creates then OwnerAt(u, x).creates[c] else was.value.grandfathered[c])
  {}

  lemma BoundSession(l: Ledger, h: SessionHandle, p: Protocol, durable: Option<OwnerId>, x: SessionId)
    requires BindProtocol(l, h, p, durable).Admitted?
    ensures var u := BindProtocol(l, h, p, durable).ledger;
            && u.claims == l.claims
            && LeasesAt(u, x) == if x == h.sessionId
                                 then LeasesAt(l, x)[h.token := LeasesAt(l, x)[h.token].(protocol := Some(p))]
                                 else LeasesAt(l, x)
  {}

  lemma FinishedSession(l: Ledger, h: SessionHandle, x: SessionId)
    ensures var u := FinishSession(l, h);
            && LeasesAt(u, x) == (if x == h.sessionId then LeasesAt(l, x) - {h.token} else LeasesAt(l, x))
            && (x in u.claims <==>
                  && x in l.claims
                  && !(x == h.sessionId && l.claims[x].token == h.token && h.token in LeasesAt(l, x)))
            && (x in u.claims ==> u.claims[x] == l.claims[x])
  {}

  lemma FinishedOwner(l: Ledger, lease: OwnerLease, x: OwnerId)
    ensures var u, was := FinishOwner(l, lease), OwnerAt(l, x);
            OwnerAt(u, x) ==
            match lease
            case CreateLease(o, c) => if x == o then was.(creates := was.creates - {c}) else was
            case ReleaseLease(o, r) => if x == o && ReleaseActive(l, o, r) then was.(release := None) else was
  {
    if lease.CreateLease? && lease.token !in OwnerAt(l, lease.ownerId).creates {
      assert OwnerAt(l, lease.ownerId).creates - {lease.token} == OwnerAt(l, lease.ownerId).creates;
    }
  }

  lemma FinishedPreflight(l: Ledger, p: PreflightLease, x: OwnerId)
    ensures var u, was := FinishPreflight(l, p), OwnerAt(l, x);
            OwnerAt(u, x) == if x == p.ownerId && PreflightStored(l, p)
                             then was.(preflights := was.preflights - {p.token}) else was
  {}

  lemma BegunCreate(l: Ledger, o: OwnerId, x: OwnerId)
    requires BeginCreate(l, o).Admitted?
    ensures OwnerAt(BeginCreate(l, o).ledger, x) ==
            if x == o then OwnerAt(l, x).(creates := OwnerAt(l, x).creates[l.nextToken := None]) else OwnerAt(l, x)
  {
    assert l.nextToken in OwnerAt(l, o).creates[l.nextToken := None];
  }

  lemma BegunPreflight(l: Ledger, o: OwnerId, s: SessionId, x: OwnerId)
    requires BeginPreflight(l, o, s).Admitted?
    ensures var p := Preflight(PreflightLease(o, s, l.nextToken, l.generation + 1), false);
            && BeginPreflight(l, o, s).ledger.generation == l.generation + 1
            && OwnerAt(BeginPreflight(l, o, s).ledger, x) ==
               if x == o then OwnerAt(l, x).(preflights := OwnerAt(l, x).preflights[l.nextToken := p])
               else OwnerAt(l, x)
  {
    var p := Preflight(PreflightLease(o, s, l.nextToken, l.generation + 1), false);
    assert l.nextToken in OwnerAt(l, o).preflights[l.nextToken := p];
  }

  lemma BegunRelease(l: Ledger, o: OwnerId, x: OwnerId)
    requires BeginRelease(l, o).Admitted?
    ensures var was, now := OwnerAt(l, x), OwnerAt(BeginRelease(l, o).ledger, x);
            && now.creates == was.creates && now.preflights.Keys == was.preflights.Keys
            && (forall t <- was.preflights ::
                  now.preflights[t] == if x == o then was.preflights[t].(retired := true) else was.preflights[t])
            && now.release == if x == o then Some(Release(l.nextToken, was.creates)) else was.release
  {}

  // ----------------------------------------------------------- session leases

  /** The lease an admitted session request leaves. */
  ghost predicate LeaseOf(lease: SessionLease, l: Ledger, m: Method, o: OwnerId, request: Option<OwnerLease>) {
    && lease.operation == m && lease.ownerId == o && lease.protocol.None?
    && lease.ownerRequestToken == (if m == Create && request.Some? then Some(request.value.token) else None)
    && (lease.countsOperation <==> !CountedAlready(l, m, request))
  }

  predicate BeginsAt(op: Op, s: SessionId) {
    op.OpBeginSession? && op.sessionId == Some(s) && (Exclusively(op.operation) || Sharing(op.operation))
  }

  /** A lease is stored exactly by an admitted request, under the token drawn for it. */
  lemma LeaseAppearsIff(ops: seq<Op>, op: Op, s: SessionId, t: Token)
    requires t !in LeasesAt(Run(EMPTY, ops), s)
    ensures var l := Run(EMPTY, ops); var u := Apply(l, op);
            && (t in LeasesAt(u, s) <==>
                  && BeginsAt(op, s) && t == l.nextToken
                  && MayBegin(l, op.operation, op.sessionId, op.owner, op.request, op.transfer))
            && (t in LeasesAt(u, s) ==> LeaseOf(LeasesAt(u, s)[t], l, op.operation, op.owner, op.request))
  {
    var l := Run(EMPTY, ops);
    Reached(ops);
    match op
    case OpBeginSession(m, x, o, request, transfer) => SessionLeaseAppears(l, m, x, o, request, transfer, s, t);
    case OpClaim(h) => if ClaimSession(l, h).Admitted? { Claimed(l, h, ""); }
    case OpBind(h, p, durable) =>
      if BindProtocol(l, h, p, durable).Admitted? { BoundSession(l, h, p, durable, s); }
    case OpFinishSession(h) => FinishedSession(l, h, s);
    case _ => OwnerKeepsSessions(l, op);
  }

  lemma SessionLeaseAppears(l: Ledger, m: Method, x: Option<SessionId>, o: OwnerId, request: Option<OwnerLease>,
                            transfer: Option<PreflightLease>, s: SessionId, t: Token)
    requires Inv(l) && t !in LeasesAt(l, s)
    ensures var u := Apply(l, OpBeginSession(m, x, o, request, transfer));
            && (t in LeasesAt(u, s) <==>
                  && (Exclusively(m) || Sharing(m)) && x == Some(s) && t == l.nextToken
                  && MayBegin(l, m, x, o, request, transfer))
            && (t in LeasesAt(u, s) ==> LeaseOf(LeasesAt(u, s)[t], l, m, o, request))
  {
    LeaselessOperations(m, x);
    if (Exclusively(m) || Sharing(m)) && x.Some? {
      SessionMayBegin(l, m, x.value, o, request, transfer);
      AppearsIfAdmitted(l, m, x.value, o, request, transfer, s, t);
    }
  }

  lemma AppearsIfAdmitted(l: Ledger, m: Method, x: SessionId, o: OwnerId, request: Option<OwnerLease>,
                          transfer: Option<PreflightLease>, s: SessionId, t: Token)
    requires t !in LeasesAt(l, s) && NeedsLease(m, Some(x))
    ensures var u := Apply(l, OpBeginSession(m, Some(x), o, request, transfer));
            && (t in LeasesAt(u, s) <==>
                  x == s && t == l.nextToken && BeginSession(l, m, Some(x), o, request, transfer).Admitted?)
            && (t in LeasesAt(u, s) ==> LeaseOf(LeasesAt(u, s)[t], l, m, o, request))
  {
    var outcome := BeginSession(l, m, Some(x), o, request, transfer);
    if outcome.Admitted? { AppearsIn(l, m, x, o, request, transfer, s, t); }
    AfterAny(l, outcome);
  }

  lemma AppearsIn(l: Ledger, m: Method, x: SessionId, o: OwnerId, request: Option<OwnerLease>,
                  transfer: Option<PreflightLease>, s: SessionId, t: Token)
    requires t !in LeasesAt(l, s) && NeedsLease(m, Some(x))
             && BeginSession(l, m, Some(x), o, request, transfer).Admitted?
    ensures var u := BeginSession(l, m, Some(x), o, request, transfer).ledger;
            && (t in LeasesAt(u, s) <==> x == s && t == l.nextToken)
            && (t in LeasesAt(u, s) ==> LeaseOf(LeasesAt(u, s)[t], l, m, o, request))
  {
    BegunLeases(l, m, x, o, request, transfer, s);
  }

  lemma AfterAny<T>(l: Ledger, outcome: Outcome<T>)
    ensures After(l, outcome) == if outcome.Admitted? then outcome.ledger else l
  {}

  /** A session operation leaves any lease but its own as it was. */
  lemma LeaseMoves(l: Ledger, op: Op, s: SessionId, t: Token)
    requires Inv(l) && t in LeasesAt(l, s)
    ensures var u := Apply(l, op);
            match op
            case OpFinishSession(h) =>
              if h == SessionHandle(s, t) then t !in LeasesAt(u, s)
              else t in LeasesAt(u, s) && LeasesAt(u, s)[t] == LeasesAt(l, s)[t]
            case OpBind(h, p, durable) =>
              && t in LeasesAt(u, s)
              && LeasesAt(u, s)[t] == if h == SessionHandle(s, t) && BindProtocol(l, h, p, durable).Admitted?
                                      then LeasesAt(l, s)[t].(protocol := Some(p)) else LeasesAt(l, s)[t]
            case _ => t in LeasesAt(u, s) && LeasesAt(u, s)[t] == LeasesAt(l, s)[t]
  {
    match op
    case OpBeginSession(m, x, o, request, transfer) =>
      BeginKeepsLease(l, m, x, o, request, transfer, s, t);
    case OpClaim(h) => if ClaimSession(l, h).Admitted? { Claimed(l, h, ""); }
    case OpBind(h, p, durable) =>
      if BindProtocol(l, h, p, durable).Admitted? { BoundSession(l, h, p, durable, s); }
    case OpFinishSession(h) => FinishedSession(l, h, s);
    case _ => OwnerKeepsSessions(l, op);
  }

  lemma BeginKeepsLease(l: Ledger, m: Method, x: Option<SessionId>, o: OwnerId, request: Option<OwnerLease>,
                        transfer: Option<PreflightLease>, s: SessionId, t: Token)
    requires SessionsOk(l) && t in LeasesAt(l, s)
    ensures var u := Apply(l, OpBeginSession(m, x, o, request, transfer));
            t in LeasesAt(u, s) && LeasesAt(u, s)[t] == LeasesAt(l, s)[t]
  {
    if NeedsLease(m, x) {
      var outcome := BeginSession(l, m, x, o, request, transfer);
      if outcome.Admitted? { AdmittedKeepsLease(l, m, x.value, o, request, transfer, s, t); }
      AfterOutcome(l, outcome, s, t);
    }
  }

  lemma AfterOutcome<T>(l: Ledger, outcome: Outcome<T>, s: SessionId, t: Token)
    requires t in LeasesAt(l, s)
    requires outcome.Admitted? ==>
               t in LeasesAt(outcome.ledger, s) && LeasesAt(outcome.ledger, s)[t] == LeasesAt(l, s)[t]
    ensures t in LeasesAt(After(l, outcome), s) && LeasesAt(After(l, outcome), s)[t] == LeasesAt(l, s)[t]
  {}

  lemma AdmittedKeepsLease(l: Ledger, m: Method, x: SessionId, o: OwnerId, request: Option<OwnerLease>,
                           transfer: Option<PreflightLease>, s: SessionId, t: Token)
    requires SessionsOk(l) && t in LeasesAt(l, s)
    requires NeedsLease(m, Some(x)) && BeginSession(l, m, Some(x), o, request, transfer).Admitted?
    ensures var u := BeginSession(l, m, Some(x), o, request, transfer).ledger;
            t in LeasesAt(u, s) && LeasesAt(u, s)[t] == LeasesAt(l, s)[t]
  {
    BegunLeases(l, m, x, o, request, transfer, s);
    assert SessionOk(LeasesAt(l, s), l.nextToken);
  }

  /** A lease leaves exactly when it is finished. Until then only its binding moves. */
  lemma LeaseLeavesIff(l: Ledger, op: Op, s: SessionId, t: Token)
    requires Inv(l) && t in LeasesAt(l, s)
    ensures var u := Apply(l, op); t !in LeasesAt(u, s) <==> op == OpFinishSession(SessionHandle(s, t))
    ensures var u := Apply(l, op); t in LeasesAt(u, s) ==>
              LeasesAt(u, s)[t] == LeasesAt(l, s)[t].(protocol := LeasesAt(u, s)[t].protocol)
  {
    LeaseMoves(l, op, s, t);
  }

  /** A create's lease stands with its claim, any other one with its owner in the durable store. */
  predicate Stands(l: Ledger, s: SessionId, t: Token, durable: Option<OwnerId>)
    requires t in LeasesAt(l, s)
  {
    if LeasesAt(l, s)[t].operation == Create then s in l.claims && l.claims[s].token == t
    else durable == Some(LeasesAt(l, s)[t].ownerId)
  }

  /** A lease is bound to an engine once, exactly while it stands. */
  lemma LeaseBoundIff(l: Ledger, op: Op, s: SessionId, t: Token)
    requires Inv(l) && t in LeasesAt(l, s) && t in LeasesAt(Apply(l, op), s)
    ensures var u := Apply(l, op);
            && (LeasesAt(u, s)[t].protocol != LeasesAt(l, s)[t].protocol <==>
                  && op.OpBind? && op.handle == SessionHandle(s, t) && LeasesAt(l, s)[t].protocol.None?
                  && Stands(l, s, t, op.durable))
            && (LeasesAt(u, s)[t].protocol != LeasesAt(l, s)[t].protocol ==>
                  LeasesAt(u, s)[t].protocol == Some(op.protocol))
  {
    LeaseMoves(l, op, s, t);
  }

  // ------------------------------------------------------------ owner requests

  /** A create begins exactly when its owner is not being released and fewer than 256 operations are in flight. */
  lemma CreateBeginsIff(ops: seq<Op>, op: Op, o: OwnerId, t: Token)
    requires t !in OwnerAt(Run(EMPTY, ops), o).creates
    ensures var l := Run(EMPTY, ops); var u := Apply(l, op);
            && (t in OwnerAt(u, o).creates <==>
                  && op == OpBeginCreate(o) && t == l.nextToken && o !in Releasing(l)
                  && InFlight(l) < MAX_OWNER_OPERATION_LEASES)
            && (t in OwnerAt(u, o).creates ==> OwnerAt(u, o).creates[t].None?)
  {
    var l := Run(EMPTY, ops);
    Reached(ops);
    ReleasingAt(l, o);
    CreatesMove(l, op, o);
  }

  /** What each operation does to the creates of one owner. */
  lemma CreatesMove(l: Ledger, op: Op, o: OwnerId)
    ensures var was, now := OwnerAt(l, o).creates, OwnerAt(Apply(l, op), o).creates;
            match op
            case OpBeginCreate(x) =>
              now == if x == o && BeginCreate(l, o).Admitted? then was[l.nextToken := None] else was
            case OpFinishOwner(lease) =>
              now == if lease.CreateLease? && lease.ownerId == o then was - {lease.token} else was
            case OpClaim(h) =>
              && now.Keys == was.Keys
              && forall c <- now | now[c] != was[c] ::
                   Claimable(l, h) && was[c].None? && now[c] == Some(h.sessionId)
            case _ => now == was
  {
    match op
    case OpBeginCreate(x) => if BeginCreate(l, x).Admitted? { BegunCreate(l, x, o); }
    case OpBeginRelease(x) => if BeginRelease(l, x).Admitted? { BegunRelease(l, x, o); }
    case OpFinishOwner(lease) => FinishedOwner(l, lease, o);
    case OpBeginPreflight(x, s) => if BeginPreflight(l, x, s).Admitted? { BegunPreflight(l, x, s, o); }
    case OpFinishPreflight(p) => FinishedPreflight(l, p, o);
    case OpBeginSession(m, s, x, request, transfer) =>
      if NeedsLease(m, s) && BeginSession(l, m, s, x, request, transfer).Admitted? {
        BegunSession(l, m, s.value, x, request, transfer, o);
      }
    case OpClaim(h) => if ClaimSession(l, h).Admitted? { Claimed(l, h, o); }
    case _ => SessionKeepsOwners(l, op);
  }

  /** A create ends exactly when it is finished. Until then it can only claim a session, once. */
  lemma CreateEndsIff(l: Ledger, op: Op, o: OwnerId, t: Token)
    requires Inv(l) && t in OwnerAt(l, o).creates
    ensures var u := Apply(l, op); t !in OwnerAt(u, o).creates <==> op == OpFinishOwner(CreateLease(o, t))
    ensures var u := Apply(l, op);
            t in OwnerAt(u, o).creates && OwnerAt(u, o).creates[t] != OwnerAt(l, o).creates[t] ==>
              && op.OpClaim? && op.handle.sessionId in u.claims && OwnerAt(l, o).creates[t].None?
              && OwnerAt(u, o).creates[t] == Some(op.handle.sessionId)
  {
    assert OwnerOk(OwnerAt(l, o), l.nextToken);
    CreatesMove(l, op, o);
    if op.OpClaim? && Claimable(l, op.handle) { Claimed(l, op.handle, o); }
  }

  // --------------------------------------------------------------- preflights

  /** What each operation does to the preflights of one owner. */
  lemma PreflightsMove(l: Ledger, op: Op, o: OwnerId)
    requires Inv(l)
    ensures var was, now := OwnerAt(l, o).preflights, OwnerAt(Apply(l, op), o).preflights;
            match op
            case OpBeginPreflight(x, s) =>
              now == if x == o && BeginPreflight(l, x, s).Admitted?
                     then was[l.nextToken := Preflight(PreflightLease(o, s, l.nextToken, l.generation + 1), false)]
                     else was
            case OpFinishPreflight(p) =>
              now == if p.ownerId == o && PreflightStored(l, p) then was - {p.token} else was
            case OpBeginRelease(x) =>
              && now.Keys == was.Keys
              && forall t <- now ::
                   now[t] == if x == o && BeginRelease(l, x).Admitted? then was[t].(retired := true) else was[t]
            case OpBeginSession(m, s, x, request, transfer) =>
              now == if Lets(l, m, s, x, request, transfer) && transfer.Some? && x == o
                     then was - {transfer.value.token} else was
            case _ => now == was
  {
    match op
    case OpBeginCreate(x) => if BeginCreate(l, x).Admitted? { BegunCreate(l, x, o); }
    case OpBeginRelease(x) => if BeginRelease(l, x).Admitted? { BegunRelease(l, x, o); }
    case OpFinishOwner(lease) => FinishedOwner(l, lease, o);
    case OpBeginPreflight(x, s) => if BeginPreflight(l, x, s).Admitted? { BegunPreflight(l, x, s, o); }
    case OpFinishPreflight(p) => FinishedPreflight(l, p, o);
    case OpBeginSession(m, s, x, request, transfer) =>
      PreflightTransferred(l, m, s, x, request, transfer, o);
    case OpClaim(h) => if ClaimSession(l, h).Admitted? { Claimed(l, h, o); }
    case _ => SessionKeepsOwners(l, op);
  }

  lemma PreflightTransferred(l: Ledger, m: Method, s: Option<SessionId>, x: OwnerId, request: Option<OwnerLease>,
                             transfer: Option<PreflightLease>, o: OwnerId)
    requires Inv(l)
    ensures var was := OwnerAt(l, o).preflights;
            OwnerAt(Apply(l, OpBeginSession(m, s, x, request, transfer)), o).preflights ==
            if Lets(l, m, s, x, request, transfer) && transfer.Some?
                && x == o then was - {transfer.value.token} else was
  {
    LetsIff(l, m, s, x, request, transfer);
    TransferredBy(l, m, s, x, request, transfer, o);
  }

  lemma TransferredBy(l: Ledger, m: Method, s: Option<SessionId>, x: OwnerId, request: Option<OwnerLease>,
                      transfer: Option<PreflightLease>, o: OwnerId)
    ensures var was := OwnerAt(l, o).preflights;
            var admitted := NeedsLease(m, s) && BeginSession(l, m, s, x, request, transfer).Admitted?;
            OwnerAt(Apply(l, OpBeginSession(m, s, x, request, transfer)), o).preflights ==
            if admitted && transfer.Some? && x == o then was - {transfer.value.token} else was
  {
    if NeedsLease(m, s) && BeginSession(l, m, s, x, request, transfer).Admitted? {
      BegunSession(l, m, s.value, x, request, transfer, o);
    }
  }

  /** A preflight begins like a create, under a generation of its own. */
  lemma PreflightBeginsIff(ops: seq<Op>, op: Op, o: OwnerId, t: Token)
    requires t !in OwnerAt(Run(EMPTY, ops), o).preflights
    ensures var l := Run(EMPTY, ops); var u := Apply(l, op);
            && (t in OwnerAt(u, o).preflights <==>
                  && op.OpBeginPreflight? && op.owner == o && t == l.nextToken && o !in Releasing(l)
                  && InFlight(l) < MAX_OWNER_OPERATION_LEASES)
            && (t in OwnerAt(u, o).preflights ==>
                  && OwnerAt(u, o).preflights[t] == Preflight(PreflightLease(o, op.session, t, u.generation), false)
                  && u.generation == l.generation + 1)
  {
    var l := Run(EMPTY, ops);
    Reached(ops);
    ReleasingAt(l, o);
    PreflightsMove(l, op, o);
    if op.OpBeginPreflight? && BeginPreflight(l, op.owner, op.session).Admitted? {
      BegunPreflight(l, op.owner, op.session, o);
    }
  }

  /** Each preflight is stored under its own owner and token. */
  ghost predicate Named(l: Ledger) { forall o :: NamedAt(l, o) }

  ghost predicate NamedAt(l: Ledger, o: OwnerId) {
    forall t <- OwnerAt(l, o).preflights ::
      OwnerAt(l, o).preflights[t].lease.ownerId == o && OwnerAt(l, o).preflights[t].lease.token == t
  }

  lemma {:induction false} NamedOverRun(l: Ledger, ops: seq<Op>)
    requires Named(l) && Inv(l)
    ensures Named(Run(l, ops))
    decreases |ops|
  {
    if ops != [] {
      forall o ensures NamedAt(Apply(l, ops[0]), o) {
        assert NamedAt(l, o);
        PreflightsMove(l, ops[0], o);
      }
      ApplyKeeps(l, ops[0]);
      NamedOverRun(Apply(l, ops[0]), ops[1..]);
    }
  }

  /** An admitted session request takes this preflight over. */
  ghost predicate TakesOver(l: Ledger, op: Op, p: PreflightLease) {
    && op.OpBeginSession? && op.sessionId.Some? && BeginsAt(op, op.sessionId.value) && op.transfer == Some(p)
    && MayBegin(l, op.operation, op.sessionId, op.owner, op.request, op.transfer)
  }

  /** A preflight ends when it is finished or taken over, and is retired exactly by its owner's release. */
  lemma PreflightEndsIff(ops: seq<Op>, op: Op, o: OwnerId, t: Token)
    requires t in OwnerAt(Run(EMPTY, ops), o).preflights
    ensures var l := Run(EMPTY, ops); var u := Apply(l, op); var p := OwnerAt(l, o).preflights[t];
            && p.lease.ownerId == o && p.lease.token == t
            && (t !in OwnerAt(u, o).preflights <==> op == OpFinishPreflight(p.lease) || TakesOver(l, op, p.lease))
            && (t in OwnerAt(u, o).preflights ==>
                  && OwnerAt(u, o).preflights[t].lease == p.lease
                  && (OwnerAt(u, o).preflights[t].retired <==>
                        || p.retired
                        || (op == OpBeginRelease(o) && |Releasing(l)| < MAX_CONCURRENT_OWNER_RELEASES
                            && o !in Releasing(l))))
  {
    var l := Run(EMPTY, ops);
    Reached(ops);
    EmptyInv();
    NamedOverRun(EMPTY, ops);
    assert NamedAt(l, o) && OwnerOk(OwnerAt(l, o), l.nextToken);
    PreflightsMove(l, op, o);
    match op
    case OpBeginSession(m, s, x, request, transfer) => TakenOver(l, m, s, x, request, transfer, o, t);
    case OpBeginRelease(x) => ReleasingAt(l, x);
    case _ =>
  }

  lemma TakenOver(l: Ledger, m: Method, s: Option<SessionId>, x: OwnerId, request: Option<OwnerLease>,
                  transfer: Option<PreflightLease>, o: OwnerId, t: Token)
    requires t in OwnerAt(l, o).preflights && NamedAt(l, o)
    ensures var p := OwnerAt(l, o).preflights[t].lease;
            TakesOver(l, OpBeginSession(m, s, x, request, transfer), p) <==>
            Lets(l, m, s, x, request, transfer) && transfer.Some? && x == o && transfer.value.token == t
  {
    if Lets(l, m, s, x, request, transfer) && transfer.Some? {
      TransferNames(l, m, s.value, x, request, transfer.value, o, t);
    }
  }

  /** A session request that takes a lease and is admitted. */
  ghost predicate Lets(l: Ledger, m: Method, s: Option<SessionId>, o: OwnerId, request: Option<OwnerLease>,
                       transfer: Option<PreflightLease>) {
    (Exclusively(m) || Sharing(m)) && s.Some? && MayBegin(l, m, s, o, request, transfer)
  }

  lemma LetsIff(l: Ledger, m: Method, s: Option<SessionId>, o: OwnerId, request: Option<OwnerLease>,
                transfer: Option<PreflightLease>)
    requires Inv(l)
    ensures NeedsLease(m, s) && BeginSession(l, m, s, o, request, transfer).Admitted? <==>
            Lets(l, m, s, o, request, transfer)
  {
    LeaselessOperations(m, s);
    if (Exclusively(m) || Sharing(m)) && s.Some? { SessionMayBegin(l, m, s.value, o, request, transfer); }
  }

  lemma TransferNames(l: Ledger, m: Method, s: SessionId, x: OwnerId, request: Option<OwnerLease>,
                      transfer: PreflightLease, o: OwnerId, t: Token)
    requires t in OwnerAt(l, o).preflights && NamedAt(l, o) && MayBegin(l, m, Some(s), x, request, Some(transfer))
    ensures x == o && transfer.token == t <==> transfer == OwnerAt(l, o).preflights[t].lease
  {
    StandingIff(l, transfer);
  }

  // ------------------------------------------------------------------ releases

  /** A release begins exactly when its owner has none and fewer than 16 are active, over the creates then in flight. */
  lemma ReleaseBeginsIff(ops: seq<Op>, op: Op, o: OwnerId)
    requires OwnerAt(Run(EMPTY, ops), o).release.None?
    ensures var l := Run(EMPTY, ops); var u := Apply(l, op);
            && (OwnerAt(u, o).release.Some? <==>
                  op == OpBeginRelease(o) && |Releasing(l)| < MAX_CONCURRENT_OWNER_RELEASES)
            && (OwnerAt(u, o).release.Some? ==>
                  && OwnerAt(u, o).release == Some(Release(l.nextToken, OwnerAt(l, o).creates))
                  && OwnerAt(u, o).creates == OwnerAt(l, o).creates)
  {
    Reached(ops);
    ReleaseMoves(Run(EMPTY, ops), op, o);
  }

  /** What each operation does to the release of one owner. */
  lemma ReleaseMoves(l: Ledger, op: Op, o: OwnerId)
    ensures var was, now := OwnerAt(l, o), OwnerAt(Apply(l, op), o);
            match op
            case OpBeginRelease(x) =>
              && now.creates == was.creates
              && now.release == if x == o && BeginRelease(l, x).Admitted? then Some(Release(l.nextToken, was.creates))
                                else was.release
            case OpFinishOwner(lease) =>
              now.release == if lease.ReleaseLease? && lease.ownerId == o && ReleaseActive(l, o, lease.token) then None
                             else was.release
            case OpClaim(_) => now.release.Some? == was.release.Some?
            case _ => now.release == was.release
  {
    match op
    case OpBeginCreate(x) => if BeginCreate(l, x).Admitted? { BegunCreate(l, x, o); }
    case OpBeginRelease(x) => if BeginRelease(l, x).Admitted? { BegunRelease(l, x, o); }
    case OpFinishOwner(lease) => FinishedOwner(l, lease, o);
    case OpBeginPreflight(x, s) => if BeginPreflight(l, x, s).Admitted? { BegunPreflight(l, x, s, o); }
    case OpFinishPreflight(p) => FinishedPreflight(l, p, o);
    case OpBeginSession(m, s, x, request, transfer) =>
      if NeedsLease(m, s) && BeginSession(l, m, s, x, request, transfer).Admitted? {
        BegunSession(l, m, s.value, x, request, transfer, o);
      }
    case OpClaim(h) => if ClaimSession(l, h).Admitted? { Claimed(l, h, o); }
    case _ => SessionKeepsOwners(l, op);
  }

  /** A release ends exactly when it is finished. Until then it only learns which sessions its creates claim. */
  lemma ReleaseEndsIff(l: Ledger, op: Op, o: OwnerId, r: Token)
    requires Inv(l) && ReleaseActive(l, o, r)
    ensures var u := Apply(l, op);
            && (!ReleaseActive(u, o, r) <==> op == OpFinishOwner(ReleaseLease(o, r)))
            && (ReleaseActive(u, o, r) ==>
                  var was, now := OwnerAt(l, o).release.value.grandfathered, OwnerAt(u, o).release.value.grandfathered;
                  && now.Keys == was.Keys
                  && forall c <- now :: now[c] == if c in OwnerAt(u, o).creates then OwnerAt(u,
                     o).creates[c] else was[c])
  {
    assert OwnerOk(OwnerAt(l, o), l.nextToken);
    ReleaseMoves(l, op, o);
    CreatesMove(l, op, o);
    if op.OpClaim? && ClaimSession(l, op.handle).Admitted? { ClaimedRelease(l, op.handle, o); }
  }

  // ------------------------------------------------------------------- claims

  /** A lease may claim its session: unbound, of a create in flight that has claimed no other session. */
  predicate MayClaim(l: Ledger, s: SessionId, t: Token) {
    && t in LeasesAt(l, s)
    && var lease := LeasesAt(l, s)[t];
       && lease.operation == Create && lease.protocol.None? && lease.ownerRequestToken.Some?
       && lease.ownerRequestToken.value in OwnerAt(l, lease.ownerId).creates
       && var claimed := OwnerAt(l, lease.ownerId).creates[lease.ownerRequestToken.value];
          claimed == None || claimed == Some(s)
  }

  /** What each operation does to the claim on one session. */
  lemma ClaimMoves(l: Ledger, op: Op, s: SessionId)
    ensures var u := Apply(l, op);
            match op
            case OpClaim(h) =>
              u.claims == if ClaimSession(l, h).Admitted?
                          then l.claims[h.sessionId := Claim(h.token, LeasesAt(l, h.sessionId)[h.token].ownerId)]
                          else l.claims
            case OpFinishSession(h) =>
              && (s in u.claims <==>
                    && s in l.claims
                    && !(s == h.sessionId && l.claims[s].token == h.token && h.token in LeasesAt(l, s)))
              && (s in u.claims ==> u.claims[s] == l.claims[s])
            case _ => u.claims == l.claims
  {
    match op
    case OpBeginSession(m, x, o, request, transfer) =>
      if NeedsLease(m, x) && BeginSession(l, m, x, o, request, transfer).Admitted? {
        BegunSession(l, m, x.value, o, request, transfer, "");
      }
    case OpClaim(h) => if ClaimSession(l, h).Admitted? { Claimed(l, h, ""); }
    case OpBind(h, p, durable) =>
      if BindProtocol(l, h, p, durable).Admitted? { BoundSession(l, h, p, durable, s); }
    case OpFinishSession(h) => FinishedSession(l, h, s);
    case _ => OwnerKeepsSessions(l, op);
  }

  /** A session is claimed exactly by a lease that may claim it, for its owner; its create records the session. */
  lemma ClaimBeginsIff(l: Ledger, op: Op, s: SessionId)
    requires s !in l.claims
    ensures var u := Apply(l, op);
            && (s in u.claims <==> op.OpClaim? && op.handle.sessionId == s && MayClaim(l, s, op.handle.token))
            && (s in u.claims ==>
                  var lease := LeasesAt(l, s)[op.handle.token];
                  && u.claims[s] == Claim(op.handle.token, lease.ownerId)
                  && OwnerAt(u, lease.ownerId).creates
                     == OwnerAt(l, lease.ownerId).creates[lease.ownerRequestToken.value := Some(s)])
  {
    ClaimMoves(l, op, s);
    if op.OpClaim? && ClaimSession(l, op.handle).Admitted? {
      Claimed(l, op.handle, LeasesAt(l, op.handle.sessionId)[op.handle.token].ownerId);
    }
  }

  /** A claim is refused where the session is claimed already, also by this very lease. */
  lemma ClaimedOnce(l: Ledger, h: SessionHandle)
    ensures ClaimSession(l, h).Admitted? <==> h.sessionId !in l.claims && MayClaim(l, h.sessionId, h.token)
  {}

  /** The claim ends exactly with its lease, and never changes hands. */
  lemma ClaimEndsIff(l: Ledger, op: Op, s: SessionId)
    requires s in l.claims && ClaimsOk(l)
    ensures var u := Apply(l, op);
            && (s !in u.claims <==> op == OpFinishSession(SessionHandle(s, l.claims[s].token)))
            && (s in u.claims ==> u.claims[s] == l.claims[s])
  {
    assert Backed(l.claims[s], LeasesAt(l, s));
    ClaimMoves(l, op, s);
  }
}
