/** Whether the tracker, once told of a merchant's store for one account, can still be told of it for another. */
module AdReportHeard {
  import opened Options
  import opened AdReportModel
  import opened AdReportSettling
  import opened AdReportTurns
  import opened AdReportInvariants
  import opened AdReportRuns
  import opened AdReportTheorems
  import opened AdReportErasure
  import opened AdReportHope
  import opened AdReportRollback

  /** The tracker was told of the merchant's store for this account. */
  ghost predicate ToldOf(w: World, m: Merchant, b: Account) {
    && b in w.merchantOf && w.merchantOf[b] == Some(m)
    && exists i | 0 <= i < |w.posts| :: w.posts[i].key == Key(b, StoreConnected)
  }

  predicate MayName(w: World, m: Merchant, b: Account) {
    b in w.merchantOf && (w.merchantOf[b].None? || w.merchantOf[b] == Some(m))
  }

  /** The account attached to the merchant, if it names none. */
  function Attached(w: World, m: Merchant, b: Account): World {
    Changed(w, Attach(b, m))
  }

  /**
   * Whether the tracker can still be told of the merchant's store for the account, as the table shows: the
   * report waits, and would have hope were the account attached, or is due in its time.
   */
  predicate Candidate(w: World, m: Merchant, b: Account) {
    && HasRows(w, b) && MayName(w, m, b)
    && var row := w.rows[Key(b, StoreConnected)];
       if row.state.Waiting? then !Hopeless(Attached(w, m, b), b, w.clock)
       else row.state.Pending? && !PastItsTime(row, w.clock)
  }

  /** An account of the merchant whose first card lies in the past. */
  predicate Anchored(w: World, m: Merchant, a: Account) {
    && a in w.merchantOf && w.merchantOf[a] == Some(m)
    && FirstCard(w, a).Some? && FirstCard(w, a).value < w.clock
  }

  lemma JoiningKeeps(w: World, m: Merchant, b: Account)
    requires Inv(w)
    ensures Inv(Attached(w, m, b))
  {
    ChangingKeeps(w, Attach(b, m));
  }

  /** What is told was posted a spacing ago at least, and its card came before. */
  lemma TellingAnchors(w: World, m: Merchant, a: Account)
    requires Inv(w) && ToldOf(w, m, a)
    ensures Anchored(w, m, a)
  {
    var i :| 0 <= i < |w.posts| && w.posts[i].key == Key(a, StoreConnected);
    assert PostOk(w, w.posts[i]);
    assert i < |w.posts| - 1 ==> w.posts[i].startedAt + SPACED_MS <= w.posts[|w.posts| - 1].startedAt;
  }

  lemma AnchorStays(w: World, step: Step, m: Merchant, a: Account)
    requires Inv(w) && Anchored(w, m, a)
    ensures Anchored(After(w, step), m, a) && FirstCard(After(w, step), a) == FirstCard(w, a)
  {
    match step
    case Between(c) => ChangingKeeps(w, c);
    case Delete(b) => assert FirstCard(Deleted(w, b), a) == FirstCard(w, a);
    case Report(input) => ReportTurnKeeps(w, input);
    case Expire(input) => ExpireTurnKeeps(w, input);
  }

  // ---- Rows that are made later ----

  /** The rows there now and not before are no older than `t`. */
  ghost predicate Newer(v: World, w: World, t: int) {
    forall k | k in w.rows && k !in v.rows :: w.rows[k].createdAt >= t
  }

  lemma MeanwhileNewer(u: World, w: World, changes: seq<Change>, t: int)
    requires Newer(u, w, t) && t <= w.clock
    ensures Newer(u, Meanwhile(w, changes), t) && t <= Meanwhile(w, changes).clock
  {
    var v := Meanwhile(w, changes);
    MeanwhileTakes(w, changes);
    forall k | k in v.rows && k !in u.rows ensures v.rows[k].createdAt >= t {
      if k in w.rows { RowsStay(w, changes, k); } else { NewcomersAreNew(w, changes, k); }
    }
  }

  /** Writing over rows makes none and dates none anew. */
  lemma WritingNewer(u: World, w: World, writes: map<Key, Row>, t: int)
    requires Newer(u, w, t) && writes.Keys <= w.rows.Keys
    requires forall k | k in writes :: writes[k].createdAt == w.rows[k].createdAt
    ensures Newer(u, w.(rows := w.rows + writes), t)
  {
  }

  lemma SettlingNewer(u: World, w: World, at: int, promote: bool, skips: set<Account>, t: int)
    requires Newer(u, w, t)
    ensures Newer(u, Settled(w, at, promote, skips), t)
  {
    WritingNewer(u, w, SettleWrites(w, at, promote, skips), t);
  }

  lemma LockNewer(w: World, input: ReportInput)
    ensures Newer(w, AtLock(w, input), w.clock) && w.clock <= AtLock(w, input).clock
  {
    var read := Meanwhile(w, input.settling);
    MeanwhileNewer(w, w, input.settling, w.clock);
    SettlingNewer(w, read, w.clock, true, input.settleSkips, w.clock);
    MeanwhileNewer(w, Settled(read, w.clock, true, input.settleSkips), input.selecting, w.clock);
    MeanwhileNewer(w, AtSelect(w, input), input.locking, w.clock);
  }

  lemma EndNewer(w: World, input: ReportInput)
    requires Posts(w, input)
    ensures Newer(w, AtEnd(w, input), w.clock)
  {
    var k, answered := Found(w, input), AtAnswer(w, input);
    var row := AfterAnswer(FoundRow(w, input), input.answer, answered.clock);
    LockNewer(w, input);
    MeanwhileNewer(w, AtLock(w, input), input.checking, w.clock);
    MeanwhileNewer(w, AtCheck(w, input), input.starting, w.clock);
    MeanwhileNewer(w, Posted(w, input), input.posting, w.clock);
    RowsStay(AtLock(w, input), input.checking, k);
    RowsStay(AtCheck(w, input), input.starting, k);
    RowsStay(Posted(w, input), input.posting, k);
    assert Newer(w, WithRow(answered, k, row), w.clock);
    MeanwhileNewer(w, WithRow(answered, k, row), input.pausing, w.clock);
  }

  lemma ReportingNewer(w: World, input: ReportInput)
    ensures Newer(w, ReportTurn(w, input).world, w.clock)
  {
    LockNewer(w, input);
    MeanwhileNewer(w, w, BeforeCheck(input), w.clock);
    MeanwhileNewer(w, w, Everything(input), w.clock);
    if Posts(w, input) {
      EndNewer(w, input);
    } else if Finds(w, input) {
      LateNewer(w, input);
    }
  }

  lemma LateNewer(w: World, input: ReportInput)
    requires Finds(w, input)
    ensures var late := AtCheck(w, input);
            Newer(w, WithRow(late, Found(w, input), GiveUp(FoundRow(w, input), late.clock)), w.clock)
  {
    LockNewer(w, input);
    MeanwhileNewer(w, AtLock(w, input), input.checking, w.clock);
    RowsStay(AtLock(w, input), input.checking, Found(w, input));
  }

  lemma ExpiringNewer(w: World, input: ExpireInput)
    ensures Newer(w, ExpireTurn(w, input).world, w.clock)
  {
    var read := Meanwhile(w, input.giving);
    MeanwhileNewer(w, w, input.giving + input.between + input.settling, w.clock);
    MeanwhileNewer(w, w, input.giving, w.clock);
    WritingNewer(w, read, GiveUpLateWrites(read.rows, w.clock), w.clock);
    MeanwhileNewer(w, AfterGivingUp(w, input), input.between, w.clock);
    var before := BeforeSettling(w, input);
    MeanwhileNewer(w, before, input.settling, w.clock);
    SettlingNewer(w, Meanwhile(before, input.settling), before.clock, false, input.skips, w.clock);
  }

  lemma StepNewer(w: World, step: Step)
    ensures Newer(w, After(w, step), w.clock)
  {
    match step
    case Between(c) =>
    case Delete(b) =>
    case Report(input) => ReportingNewer(w, input);
    case Expire(input) => ExpiringNewer(w, input);
  }

  /** A registration made after the merchant's first card has no part in it. */
  lemma LatecomersAreOut(w: World, step: Step, m: Merchant, a: Account, b: Account)
    requires Inv(w) && Anchored(w, m, a) && Key(b, StoreConnected) !in w.rows
    ensures !Candidate(After(w, step), m, b)
  {
    var v, k := After(w, step), Key(b, StoreConnected);
    StepKeeps(w, step);
    StepNewer(w, step);
    AnchorStays(w, step, m, a);
    if HasRows(v, b) && MayName(v, m, b) {
      assert v.rows[k].createdAt > FirstCard(v, a).value;
      if Left(v, b) {
        LeftAtItsCard(v, m, a, b);
      } else {
        assert FirstCard(Attached(v, m, b), b) == FirstCard(v, a);
      }
    }
  }

  lemma LeftAtItsCard(w: World, m: Merchant, a: Account, b: Account)
    requires Inv(w) && Anchored(w, m, a) && MayName(w, m, b) && Left(w, b)
    ensures w.merchantOf[b] == Some(m)
    ensures w.rows[Key(b, StoreConnected)].createdAt <= FirstCard(w, a).value
  {
    assert Earned(w, b);
    assert FirstCard(w, b) == FirstCard(w, a);
  }

  // ---- Rows that can no longer be posted ----

  /** A row past its time is never posted: it stays, or is given up. */
  lemma PastItsTimeStays(w: World, step: Step, k: Key)
    requires Inv(w) && k in w.rows && PastItsTime(w.rows[k], w.clock) && !step.Delete?
    ensures var v := After(w, step);
            k in v.rows && (v.rows[k] == w.rows[k] || !Open(v.rows[k].state))
  {
    match step
    case Between(c) => RowsStay(w, [c], k); assert Meanwhile(w, [c]) == Changed(w, c);
    case Report(input) => PastItsTimeIsNotPosted(w, input, k);
    case Expire(input) =>
      ReadByTheSecond(w, input, k);
      RowsStay(w, input.giving + input.between + input.settling, k);
  }

  lemma PastItsTimeIsNotPosted(w: World, input: ReportInput, k: Key)
    requires Inv(w) && k in w.rows && PastItsTime(w.rows[k], w.clock)
    ensures var v := ReportTurn(w, input).world;
            k in v.rows && (v.rows[k] == w.rows[k] || v.rows[k].state.GivenUp?)
    ensures Posts(w, input) ==> Found(w, input) != k
  {
    PendingAtLock(w, input, k);
    RowsAfterTheTurn(w, input, k);
    CheckTakes(w, input);
  }

  /** Settling leaves what no longer waits. */
  lemma PendingAtLock(w: World, input: ReportInput, k: Key)
    requires k in w.rows && !w.rows[k].state.Waiting?
    ensures k in AtLock(w, input).rows && AtLock(w, input).rows[k] == w.rows[k]
  {
    RowsStay(w, input.settling, k);
    RowsStay(Settled(Meanwhile(w, input.settling), w.clock, true, input.settleSkips), input.selecting, k);
    RowsStay(AtSelect(w, input), input.locking, k);
  }

  /** A report that no longer waits and is no candidate stays none. */
  lemma PostedOrClosedStaysOut(w: World, step: Step, m: Merchant, b: Account)
    requires Inv(w) && HasRows(w, b) && MayName(w, m, b) && !Candidate(w, m, b)
    requires !w.rows[Key(b, StoreConnected)].state.Waiting?
    ensures !Candidate(After(w, step), m, b)
  {
    var v, k := After(w, step), Key(b, StoreConnected);
    StepKeeps(w, step);
    if Left(w, b) { assert Earned(w, b); }
    if k in v.rows {
      assert Advanced(w.rows[k], v.rows[k]);
      if w.rows[k].state.Pending? {
        if step.Delete? { assert v.rows[k] == w.rows[k]; } else { PastItsTimeStays(w, step, k); }
      }
    }
  }

  // ---- A waiting report that has no hope once its account joins ----

  /** The report waits and has no hope once its account joins the merchant. */
  ghost predicate Hindered(w: World, m: Merchant, b: Account) {
    && HasRows(w, b) && w.merchantOf[b].None? && w.rows[Key(b, StoreConnected)].state.Waiting?
    && Doomed(Attached(w, m, b), b, w.clock)
  }

  lemma AttachedGrows(w: World, v: World, m: Merchant, a: Account, b: Account)
    requires Anchored(w, m, a) && MayName(w, m, b) && MayName(v, m, b) && Grows(w, v) && Advances(w, v)
    ensures Grows(Attached(w, m, b), Attached(v, m, b)) && Advances(Attached(w, m, b), Attached(v, m, b))
  {
    var w', v' := Attached(w, m, b), Attached(v, m, b);
    assert FirstCard(w', b) == FirstCard(w, a) && FirstCard(v', b) == FirstCard(v, a);
    forall c | c in w'.merchantOf && w'.merchantOf[c].Some? && FirstCard(w', c).Some?
      ensures FirstCard(v', c) == FirstCard(w', c)
    {
      if c != b { assert FirstCard(w', c) == FirstCard(w, c) && FirstCard(v', c) == FirstCard(v, c); }
    }
  }

  /** Its own rows untouched, or closed, the report stays without hope. */
  lemma HinderedStays(w: World, v: World, m: Merchant, a: Account, b: Account)
    requires Anchored(w, m, a) && Hindered(w, m, b) && MayName(v, m, b) && Grows(w, v) && Advances(w, v)
    requires Key(b, StoreConnected) in v.rows && Key(b, Reg) in v.rows
    requires v.rows[Key(b, StoreConnected)] == w.rows[Key(b, StoreConnected)] || ClosedUntried(v.rows[Key(b, StoreConnected)])
    requires PastItsTime(w.rows[Key(b, Reg)], w.clock) || NoTimeAfter(Attached(w, m, b), b, w.clock) ==>
               v.rows[Key(b, Reg)] == w.rows[Key(b, Reg)] || Failed(v.rows[Key(b, Reg)].state)
    ensures Doomed(Attached(v, m, b), b, v.clock) && !Candidate(v, m, b)
  {
    AttachedGrows(w, v, m, a, b);
    DoomStays(Attached(w, m, b), Attached(v, m, b), b, w.clock);
    DoomLater(Attached(v, m, b), b, w.clock, v.clock);
  }

  lemma ChangingHindered(w: World, c: Change, m: Merchant, a: Account, b: Account)
    requires Inv(w) && Anchored(w, m, a) && Hindered(w, m, b)
    ensures !Candidate(Changed(w, c), m, b)
  {
    ChangingKeeps(w, c);
    RowsStay(w, [c], Key(b, StoreConnected));
    RowsStay(w, [c], Key(b, Reg));
    assert Meanwhile(w, [c]) == Changed(w, c);
    if MayName(Changed(w, c), m, b) { HinderedStays(w, Changed(w, c), m, a, b); }
  }

  lemma DeletingHindered(w: World, c: Account, m: Merchant, b: Account)
    requires Inv(w) && Hindered(w, m, b)
    ensures !Candidate(Deleted(w, c), m, b)
  {
    if c != b {
      JoiningKeeps(w, m, b);
      DeletingOthersDoomed(Attached(w, m, b), c, b, w.clock);
      assert Deleted(Attached(w, m, b), c).merchantOf == Attached(Deleted(w, c), m, b).merchantOf;
      assert Deleted(Attached(w, m, b), c) == Attached(Deleted(w, c), m, b);
    }
  }

  /** Nothing becomes due that has no merchant, nor anything with reporting off. */
  lemma SettledRowOfTheWaiting(w: World, at: int, promote: bool, skips: set<Account>, b: Account)
    requires HasRows(w, b) && w.rows[Key(b, StoreConnected)].state.Waiting? && w.rows[Key(b, StoreConnected)].attempts == 0
    requires w.merchantOf[b].None? || !promote
    ensures var row := Settled(w, at, promote, skips).rows[Key(b, StoreConnected)];
            row == w.rows[Key(b, StoreConnected)] || ClosedUntried(row)
  {
  }

  lemma ExpiredRows(w: World, input: ExpireInput, b: Account)
    requires HasRows(w, b) && w.rows[Key(b, StoreConnected)].state.Waiting? && w.rows[Key(b, StoreConnected)].attempts == 0
    requires b in Meanwhile(BeforeSettling(w, input), input.settling).merchantOf
    ensures var rows := ExpireTurn(w, input).world.rows;
            && Key(b, StoreConnected) in rows && Key(b, Reg) in rows
            && (rows[Key(b, StoreConnected)] == w.rows[Key(b, StoreConnected)] || ClosedUntried(rows[Key(b, StoreConnected)]))
            && (rows[Key(b, Reg)] == w.rows[Key(b, Reg)] || Failed(rows[Key(b, Reg)].state))
  {
    var before := BeforeSettling(w, input);
    RowsStay(w, input.giving + input.between + input.settling, Key(b, StoreConnected));
    RowsStay(w, input.giving + input.between + input.settling, Key(b, Reg));
    ReadByTheSecond(w, input, Key(b, StoreConnected));
    ReadByTheSecond(w, input, Key(b, Reg));
    SettledRowOfTheWaiting(Meanwhile(before, input.settling), before.clock, false, input.skips, b);
  }

  lemma ExpiringHindered(w: World, input: ExpireInput, m: Merchant, a: Account, b: Account)
    requires Inv(w) && Anchored(w, m, a) && Hindered(w, m, b)
    ensures !Candidate(ExpireTurn(w, input).world, m, b)
  {
    var v := ExpireTurn(w, input).world;
    ExpireTurnKeeps(w, input);
    AccountsStay(w, input, b);
    RowOfTheWaiting(w, b);
    ExpiredRows(w, input, b);
    if MayName(v, m, b) { HinderedStays(w, v, m, a, b); }
  }

  lemma RowOfTheWaiting(w: World, b: Account)
    requires Inv(w) && HasRows(w, b) && w.rows[Key(b, StoreConnected)].state.Waiting?
    ensures w.rows[Key(b, StoreConnected)].attempts == 0
  {
    assert RowOk(Key(b, StoreConnected), w.rows[Key(b, StoreConnected)], w.clock);
  }

  // ---- The same through a reporting turn ----

  lemma {:induction false} NamesStay(w: World, changes: seq<Change>, b: Account)
    requires b in w.merchantOf
    ensures b in Meanwhile(w, changes).merchantOf
    ensures w.merchantOf[b].Some? ==> Meanwhile(w, changes).merchantOf[b] == w.merchantOf[b]
    decreases |changes|
  {
    if changes != [] { NamesStay(Changed(w, changes[0]), changes[1..], b); }
  }

  /** Whom the account names as the settling runs it names when the turn ends. */
  lemma NameReadIsKept(w: World, input: ReportInput, b: Account)
    requires b in w.merchantOf
    ensures b in Meanwhile(w, input.settling).merchantOf && b in ReportTurn(w, input).world.merchantOf
    ensures w.merchantOf[b].Some? ==> Meanwhile(w, input.settling).merchantOf[b] == w.merchantOf[b]
    ensures Meanwhile(w, input.settling).merchantOf[b].Some? ==>
              ReportTurn(w, input).world.merchantOf[b] == Meanwhile(w, input.settling).merchantOf[b]
  {
    var early := input.selecting + input.locking + input.checking;
    var all := early + input.starting + input.posting + input.pausing;
    assert input.settling + early == BeforeCheck(input);
    assert input.settling + all == Everything(input);
    NamesStay(w, input.settling, b);
    NameOutlasts(w, input.settling, early, b);
    NameOutlasts(w, input.settling, all, b);
    NameKeptToStart(w, input, b);
    if Posts(w, input) { NameKeptAtEnd(w, input, b); }
  }

  lemma NameOutlasts(w: World, one: seq<Change>, other: seq<Change>, b: Account)
    requires b in w.merchantOf
    ensures b in Meanwhile(w, one).merchantOf && b in Meanwhile(w, one + other).merchantOf
    ensures Meanwhile(w, one).merchantOf[b].Some? ==> Meanwhile(w, one + other).merchantOf[b] == Meanwhile(w, one).merchantOf[b]
  {
    NamesStay(w, one, b);
    MeanwhileSplits(w, one, other);
    NamesStay(Meanwhile(w, one), other, b);
  }

  lemma NameKeptToStart(w: World, input: ReportInput, b: Account)
    requires b in Meanwhile(w, input.settling).merchantOf
    ensures forall v | v in [AtLock(w, input), AtCheck(w, input), AtStart(w, input)] ::
              && b in v.merchantOf
              && (Meanwhile(w, input.settling).merchantOf[b].Some? ==> v.merchantOf[b] == Meanwhile(w, input.settling).merchantOf[b])
  {
    NamesStay(Settled(Meanwhile(w, input.settling), w.clock, true, input.settleSkips), input.selecting, b);
    NamesStay(AtSelect(w, input), input.locking, b);
    NamesStay(AtLock(w, input), input.checking, b);
    NamesStay(AtCheck(w, input), input.starting, b);
  }

  lemma NameKeptAtEnd(w: World, input: ReportInput, b: Account)
    requires Posts(w, input) && b in AtStart(w, input).merchantOf
    ensures b in AtEnd(w, input).merchantOf
    ensures AtStart(w, input).merchantOf[b].Some? ==> AtEnd(w, input).merchantOf[b] == AtStart(w, input).merchantOf[b]
  {
    var answered := AtAnswer(w, input);
    NamesStay(Posted(w, input), input.posting, b);
    NamesStay(WithRow(answered, Found(w, input), AfterAnswer(FoundRow(w, input), input.answer, answered.clock)), input.pausing, b);
  }

  /** Settled, the report is as it was or closed, unless its account has joined another merchant. */
  lemma SettledRowOfTheHindered(w: World, changes: seq<Change>, skips: set<Account>, m: Merchant, a: Account, b: Account)
    requires Inv(w) && Anchored(w, m, a) && Hindered(w, m, b) && MayName(Meanwhile(w, changes), m, b)
    ensures var k, settled := Key(b, StoreConnected), Settled(Meanwhile(w, changes), w.clock, true, skips);
            k in settled.rows && (settled.rows[k] == w.rows[k] || ClosedUntried(settled.rows[k]))
  {
    var read := Meanwhile(w, changes);
    MeanwhileKeeps(w, changes);
    MeanwhileAdvances(w, changes);
    RowsStay(w, changes, Key(b, StoreConnected));
    RowsStay(w, changes, Key(b, Reg));
    RowOfTheWaiting(w, b);
    if read.merchantOf[b].Some? {
      HinderedAtRead(w, read, m, a, b);
      SettledRowOfTheDoomed(read, w.clock, true, skips, b, w.clock);
    } else {
      SettledRowOfTheWaiting(read, w.clock, true, skips, b);
    }
  }

  lemma HinderedAtRead(w: World, read: World, m: Merchant, a: Account, b: Account)
    requires Inv(w) && Anchored(w, m, a) && Hindered(w, m, b) && Grows(w, read) && Advances(w, read)
    requires b in read.merchantOf && read.merchantOf[b] == Some(m)
    requires HasRows(read, b) && read.rows[Key(b, StoreConnected)] == w.rows[Key(b, StoreConnected)]
    requires read.rows[Key(b, Reg)] == w.rows[Key(b, Reg)]
    ensures Doomed(read, b, w.clock)
  {
    AttachedGrows(w, read, m, a, b);
    DoomStays(Attached(w, m, b), read, b, w.clock);
  }

  lemma LockedRowsOfTheHindered(w: World, input: ReportInput, m: Merchant, a: Account, b: Account)
    requires Inv(w) && Anchored(w, m, a) && Hindered(w, m, b) && MayName(Meanwhile(w, input.settling), m, b)
    ensures var k, lock := Key(b, StoreConnected), AtLock(w, input);
            && k in lock.rows && (lock.rows[k] == w.rows[k] || ClosedUntried(lock.rows[k]))
            && Key(b, Reg) in lock.rows && lock.rows[Key(b, Reg)] == w.rows[Key(b, Reg)]
    ensures Finds(w, input) ==> Found(w, input) != Key(b, StoreConnected)
  {
    var settled := Settled(Meanwhile(w, input.settling), w.clock, true, input.settleSkips);
    SettledRowOfTheHindered(w, input.settling, input.settleSkips, m, a, b);
    RowsStay(w, input.settling, Key(b, Reg));
    RowsStay(settled, input.selecting, Key(b, StoreConnected));
    RowsStay(settled, input.selecting, Key(b, Reg));
    RowsStay(AtSelect(w, input), input.locking, Key(b, StoreConnected));
    RowsStay(AtSelect(w, input), input.locking, Key(b, Reg));
  }

  lemma ReportingHindered(w: World, input: ReportInput, m: Merchant, a: Account, b: Account)
    requires Inv(w) && Anchored(w, m, a) && Hindered(w, m, b)
    ensures !Candidate(ReportTurn(w, input).world, m, b)
  {
    var v := ReportTurn(w, input).world;
    NameReadIsKept(w, input, b);
    if MayName(v, m, b) {
      ReportTurnKeeps(w, input);
      LockedRowsOfTheHindered(w, input, m, a, b);
      RowsAfterTheTurn(w, input, Key(b, StoreConnected));
      if NoTimeAfter(Attached(w, m, b), b, w.clock) && RegistrationPosted(w, input, b) {
        HinderedByTheClock(w, input, m, a, b);
      } else {
        RegistrationOfTheHindered(w, input, m, b);
        HinderedStays(w, v, m, a, b);
      }
    }
  }

  lemma RegistrationOfTheHindered(w: World, input: ReportInput, m: Merchant, b: Account)
    requires Inv(w) && Hindered(w, m, b)
    requires Key(b, Reg) in AtLock(w, input).rows && AtLock(w, input).rows[Key(b, Reg)] == w.rows[Key(b, Reg)]
    requires NoTimeAfter(Attached(w, m, b), b, w.clock) ==> !RegistrationPosted(w, input, b)
    ensures var v, k := ReportTurn(w, input).world, Key(b, Reg);
            && k in v.rows
            && (PastItsTime(w.rows[k], w.clock) || NoTimeAfter(Attached(w, m, b), b, w.clock) ==>
                  v.rows[k] == w.rows[k] || Failed(v.rows[k].state))
  {
    RowsAfterTheTurn(w, input, Key(b, Reg));
    if PastItsTime(w.rows[Key(b, Reg)], w.clock) { PastItsTimeIsNotPosted(w, input, Key(b, Reg)); }
  }

  /** Its registration posted too late, the report is past the card's day when the turn ends. */
  lemma HinderedByTheClock(w: World, input: ReportInput, m: Merchant, a: Account, b: Account)
    requires Inv(w) && Anchored(w, m, a) && Hindered(w, m, b) && RegistrationPosted(w, input, b)
    requires NoTimeAfter(Attached(w, m, b), b, w.clock)
    requires Key(b, Reg) in AtLock(w, input).rows && AtLock(w, input).rows[Key(b, Reg)] == w.rows[Key(b, Reg)]
    requires MayName(AtEnd(w, input), m, b) && Key(b, StoreConnected) in AtEnd(w, input).rows
    requires var row := AtEnd(w, input).rows[Key(b, StoreConnected)];
             ClosedUntried(row) || row == w.rows[Key(b, StoreConnected)]
    ensures !Candidate(AtEnd(w, input), m, b)
  {
    var end := AtEnd(w, input);
    RecordedKeeps(w, input);
    FoundStaysAtEnd(w, input);
    RegistrationTakesItsTime(w, input, b);
    AttachedGrows(w, end, m, a, b);
    DoomedByTheClock(Attached(w, m, b), Attached(end, m, b), b);
  }

  /** The turn that posts a registration ends a spacing after the registration's try was due. */
  lemma RegistrationTakesItsTime(w: World, input: ReportInput, b: Account)
    requires Inv(w) && Posts(w, input) && Found(w, input) == Key(b, Reg) && Key(b, Reg) in w.rows
    requires AtLock(w, input).rows[Key(b, Reg)] == w.rows[Key(b, Reg)]
    ensures w.rows[Key(b, Reg)].nextAttemptAt.Some?
    ensures Later(w.clock, w.rows[Key(b, Reg)].nextAttemptAt.value) + SPACED_MS <= AtEnd(w, input).clock
  {
    PostIsOk(w, input);
    StartStands(w, input);
    EndIsSpaced(w, input);
  }

  lemma EndIsSpaced(w: World, input: ReportInput)
    requires Inv(w) && Posts(w, input)
    ensures AtStart(w, input).clock + SPACED_MS <= AtEnd(w, input).clock
  {
    var end := AtEnd(w, input);
    RecordedKeeps(w, input);
    assert end.posts[|end.posts| - 1].startedAt == AtStart(w, input).clock;
  }

  // ---- No step makes a candidate, or tells of what is none ----

  lemma HinderedStaysOut(w: World, step: Step, m: Merchant, a: Account, b: Account)
    requires Inv(w) && Anchored(w, m, a) && Hindered(w, m, b)
    ensures !Candidate(After(w, step), m, b)
  {
    match step
    case Between(c) => ChangingHindered(w, c, m, a, b);
    case Delete(c) => DeletingHindered(w, c, m, b);
    case Report(input) => ReportingHindered(w, input, m, a, b);
    case Expire(input) => ExpiringHindered(w, input, m, a, b);
  }

  lemma DoomedStaysOut(w: World, step: Step, m: Merchant, b: Account)
    requires Inv(w) && HasRows(w, b) && w.merchantOf[b] == Some(m) && Doomed(w, b, w.clock)
    ensures !Candidate(After(w, step), m, b)
  {
    if !(step.Delete? && step.account == b) {
      StepDoomed(w, step, b);
      StepKeeps(w, step);
      assert Attached(After(w, step), m, b) == After(w, step);
    }
  }

  /** What is no candidate of the merchant becomes none, whatever happens. */
  lemma StaysOut(w: World, step: Step, m: Merchant, a: Account, b: Account)
    requires Inv(w) && Anchored(w, m, a) && !Candidate(w, m, b)
    ensures !Candidate(After(w, step), m, b)
  {
    var k := Key(b, StoreConnected);
    if k !in w.rows {
      LatecomersAreOut(w, step, m, a, b);
    } else {
      assert Paired(w, k.account);
      StepKeeps(w, step);
      if !MayName(w, m, b) {
      } else if !w.rows[k].state.Waiting? {
        PostedOrClosedStaysOut(w, step, m, b);
      } else if w.merchantOf[b].None? {
        HinderedStaysOut(w, step, m, a, b);
      } else {
        DoomedStaysOut(w, step, m, b);
      }
    }
  }

  /** A turn posts no store report of the merchant's but a candidate's. */
  lemma OnlyCandidatesArePosted(w: World, input: ReportInput, m: Merchant, a: Account, b: Account)
    requires Inv(w) && Anchored(w, m, a) && !Candidate(w, m, b)
    requires Posts(w, input) && Found(w, input) == Key(b, StoreConnected)
    ensures !MayName(ReportTurn(w, input).world, m, b)
  {
    var k, v := Key(b, StoreConnected), ReportTurn(w, input).world;
    if MayName(v, m, b) {
      if k !in w.rows {
        LatecomersAreNotPosted(w, input, m, a, b);
      } else {
        assert Paired(w, k.account);
        NameReadIsKept(w, input, b);
        KnownAreNotPosted(w, input, m, a, b);
      }
    }
  }

  lemma LatecomersAreNotPosted(w: World, input: ReportInput, m: Merchant, a: Account, b: Account)
    requires Inv(w) && Anchored(w, m, a) && Key(b, StoreConnected) !in w.rows
    requires Posts(w, input) && Found(w, input) == Key(b, StoreConnected)
    ensures !MayName(ReportTurn(w, input).world, m, b)
  {
    var v := ReportTurn(w, input).world;
    ReportTurnKeeps(w, input);
    LockNewer(w, input);
    assert PostOk(v, v.posts[|w.posts|]);
    assert v.posts[|w.posts|] == PostOf(w, input);
  }

  lemma KnownAreNotPosted(w: World, input: ReportInput, m: Merchant, a: Account, b: Account)
    requires Inv(w) && Anchored(w, m, a) && HasRows(w, b) && !Candidate(w, m, b)
    requires MayName(w, m, b) && MayName(Meanwhile(w, input.settling), m, b)
    ensures Posts(w, input) ==> Found(w, input) != Key(b, StoreConnected)
  {
    var k := Key(b, StoreConnected);
    if !w.rows[k].state.Waiting? {
      PendingAtLock(w, input, k);
      if PastItsTime(w.rows[k], w.clock) { PastItsTimeIsNotPosted(w, input, k); }
    } else if w.merchantOf[b].None? {
      LockedRowsOfTheHindered(w, input, m, a, b);
    } else {
      assert Attached(w, m, b) == w;
      if Finds(w, input) { DoomedIsNotFound(w, input, b, w.clock); }
    }
  }

  /** Of nobody is the tracker told anew but of a candidate. */
  lemma NotToldAnew(w: World, step: Step, m: Merchant, a: Account, b: Account)
    requires Inv(w) && Anchored(w, m, a) && !Candidate(w, m, b) && !ToldOf(w, m, b)
    ensures !ToldOf(After(w, step), m, b)
  {
    var v := After(w, step);
    StepKeeps(w, step);
    if ToldOf(v, m, b) {
      var i :| 0 <= i < |v.posts| && v.posts[i].key == Key(b, StoreConnected);
      if i < |w.posts| {
        ToldBefore(w, v, m, b, i);
      } else {
        OnlyReportingPosts(w, step);
        OnlyCandidatesArePosted(w, step.input, m, a, b);
      }
    }
  }

  lemma ToldBefore(w: World, v: World, m: Merchant, b: Account, i: nat)
    requires Inv(w) && w.posts <= v.posts && i < |w.posts| && v.posts[i].key == Key(b, StoreConnected)
    requires b in v.merchantOf && v.merchantOf[b] == Some(m)
    requires b in w.merchantOf && w.merchantOf[b].Some? ==> v.merchantOf[b] == w.merchantOf[b]
    ensures ToldOf(w, m, b)
  {
    assert w.posts[i] == v.posts[i];
    assert PostOk(w, w.posts[i]);
  }

  lemma OnlyReportingPosts(w: World, step: Step)
    requires Inv(w) && |After(w, step).posts| > |w.posts|
    ensures step.Report? && Posts(w, step.input) && After(w, step).posts == w.posts + [PostOf(w, step.input)]
  {
    match step
    case Between(c) =>
    case Delete(b) =>
    case Report(input) => ReportTurnKeeps(w, input);
    case Expire(input) => ExpireTurnKeeps(w, input);
  }

  /** Without a candidate the tracker hears of nobody else, whatever the run. */
  lemma {:induction false} NobodyElseIsTold(w: World, steps: seq<Step>, m: Merchant, a: Account, b: Account)
    requires Inv(w) && Anchored(w, m, a) && !Candidate(w, m, b) && !ToldOf(w, m, b)
    ensures Inv(Run(w, steps)) && Anchored(Run(w, steps), m, a)
    ensures !Candidate(Run(w, steps), m, b) && !ToldOf(Run(w, steps), m, b)
  {
    if steps != [] {
      var shorter, step := steps[..|steps| - 1], steps[|steps| - 1];
      NobodyElseIsTold(w, shorter, m, a, b);
      var v := Run(w, shorter);
      StepKeeps(v, step);
      AnchorStays(v, step, m, a);
      StaysOut(v, step, m, a, b);
      NotToldAnew(v, step, m, a, b);
    }
  }

  // ---- A candidate can be told of ----

  /** A turn that settles this account's report alone, and takes no other row. */
  function StoreAlone(w: World, b: Account): ReportInput {
    ReportInput([], w.merchantOf.Keys - {b}, [], [], w.rows.Keys - {Key(b, StoreConnected)}, [], [], Status(200), [], [], Nowhere)
  }

  /** A turn none of whose rows but one is free posts that one, once it is due and in time. */
  lemma OnlyRowIsPosted(w: World, input: ReportInput, v: World, k: Key)
    requires v == Settled(w, w.clock, true, input.settleSkips) && input.settling == input.selecting == input.locking == []
    requires input.checking == input.starting == input.posting == input.pausing == [] && input.failure.Nowhere?
    requires input.dueSkips == w.rows.Keys - {k} && IsDue(v, w.clock, input.dueSkips, k)
    requires v.rows[k].click.Some? && v.rows[k].eventAt.Some? && w.clock < LastTry(v.rows[k].eventAt.value, v.rows[k].createdAt)
    ensures var after := After(w, Report(input));
            after.merchantOf == w.merchantOf && |after.posts| == |w.posts| + 1 && after.posts[|w.posts|].key == k
  {
    assert AtLock(w, input) == v && SelectAt(w, input) == w.clock;
    assert Found(w, input) == k;
    assert Posts(w, input);
    assert AtEnd(w, input).posts == w.posts + [PostOf(w, input)];
  }

  lemma DeliveredCanBeTold(w: World, m: Merchant, b: Account)
    requires Inv(w) && HasRows(w, b) && w.merchantOf[b] == Some(m) && FirstCard(w, b).Some?
    requires w.rows[Key(b, StoreConnected)].state.Waiting? && w.rows[Key(b, Reg)].state.Delivered?
    requires !Hopeless(w, b, w.clock)
    ensures ToldOf(After(w, Report(StoreAlone(w, b))), m, b)
  {
    var input, k := StoreAlone(w, b), Key(b, StoreConnected);
    var v := Settled(w, w.clock, true, input.settleSkips);
    assert RowOk(k, w.rows[k], w.clock);
    FirstCardIsPast(w, b);
    assert Eligible(w, input.settleSkips, b);
    assert Holds(w, input.settleSkips, b);
    assert FateOf(w, w.clock, true, input.settleSkips, b).Due?;
    assert k in SettleWrites(w, w.clock, true, input.settleSkips);
    OnlyRowIsPosted(w, input, v, k);
    assert After(w, Report(input)).posts[|w.posts|].key == k;
  }

  /** A turn that settles nothing and takes this row. */
  function DueAlone(w: World, k: Key): ReportInput {
    ReportInput([], w.merchantOf.Keys, [], [], w.rows.Keys - {k}, [], [], Status(200), [], [], Nowhere)
  }

  /** A due report in its time can be told of at its next try. */
  lemma PendingCanBeTold(w: World, m: Merchant, b: Account) returns (steps: seq<Step>)
    requires Inv(w) && HasRows(w, b) && w.merchantOf[b] == Some(m)
    requires w.rows[Key(b, StoreConnected)].state.Pending? && !PastItsTime(w.rows[Key(b, StoreConnected)], w.clock)
    ensures ToldOf(Run(w, steps), m, b)
  {
    var k := Key(b, StoreConnected);
    assert RowOk(k, w.rows[k], w.clock);
    var u := w.(clock := Later(w.clock, w.rows[k].nextAttemptAt.value));
    var tick, turn := Between(Tick(u.clock - w.clock)), Report(DueAlone(u, k));
    assert After(w, tick) == u;
    NothingSettles(u);
    OnlyRowIsPosted(u, DueAlone(u, k), u, k);
    steps := [tick, turn];
    TwoSteps(w, tick, turn);
    assert Run(w, steps).posts[|w.posts|].key == k;
  }

  lemma NothingSettles(w: World)
    ensures Settled(w, w.clock, true, w.merchantOf.Keys) == w
  {
    assert SettleWrites(w, w.clock, true, w.merchantOf.Keys) == map[];
    assert w.rows + map[] == w.rows;
  }

  /** A report with hope, of an account of the merchant and dated by its card, can be told of. */
  lemma HopefulCanBeTold(w: World, m: Merchant, b: Account) returns (steps: seq<Step>)
    requires Inv(w) && HasRows(w, b) && w.merchantOf[b] == Some(m) && FirstCard(w, b).Some?
    requires w.rows[Key(b, StoreConnected)].state.Waiting? && !Hopeless(w, b, w.clock)
    ensures ToldOf(Run(w, steps), m, b)
  {
    assert RowOk(Key(b, Reg), w.rows[Key(b, Reg)], w.clock);
    if w.rows[Key(b, Reg)].state.Delivered? {
      DeliveredCanBeTold(w, m, b);
      steps := [Report(StoreAlone(w, b))];
      OneStep(w, steps[0]);
    } else {
      var one, v := UndeliveredIsDelivered(w, m, b);
      DeliveredCanBeTold(v, m, b);
      OneStep(v, Report(StoreAlone(v, b)));
      RunGoesOn(w, one, [Report(StoreAlone(v, b))]);
      steps := one + [Report(StoreAlone(v, b))];
    }
  }

  lemma OneStep(w: World, step: Step)
    ensures Run(w, [step]) == After(w, step)
  {
    assert [step][..0] == [];
  }

  lemma UndeliveredIsDelivered(w: World, m: Merchant, b: Account) returns (steps: seq<Step>, v: World)
    requires Inv(w) && HasRows(w, b) && w.merchantOf[b] == Some(m) && FirstCard(w, b).Some?
    requires w.rows[Key(b, StoreConnected)].state.Waiting? && !Hopeless(w, b, w.clock)
    requires w.rows[Key(b, Reg)].state.Pending?
    ensures v == Run(w, steps) && Inv(v) && HasRows(v, b) && v.merchantOf[b] == Some(m) && FirstCard(v, b).Some?
    ensures v.rows[Key(b, StoreConnected)].state.Waiting? && v.rows[Key(b, Reg)].state.Delivered?
    ensures !Hopeless(v, b, v.clock)
  {
    assert RowOk(Key(b, Reg), w.rows[Key(b, Reg)], w.clock);
    var u := AtNextTry(w, b);
    var tick, turn := Between(Tick(u.clock - w.clock)), Report(RegistrationAlone(u, b));
    NextTryDelivers(w, b);
    v := After(u, turn);
    DeliveryKeepsHope(w, v, b);
    steps := [tick, turn];
    assert After(w, tick) == u;
    TwoSteps(w, tick, turn);
    assert FirstCard(v, b) == FirstCard(w, b);
  }

  /** Every candidate can be told of. */
  lemma CandidateCanBeTold(w: World, m: Merchant, a: Account, b: Account) returns (steps: seq<Step>)
    requires Inv(w) && Anchored(w, m, a) && Candidate(w, m, b)
    ensures ToldOf(Run(w, steps), m, b)
  {
    if w.rows[Key(b, StoreConnected)].state.Waiting? {
      var v, attach := Attached(w, m, b), Between(Attach(b, m));
      JoiningKeeps(w, m, b);
      assert FirstCard(v, b) == FirstCard(w, a);
      var rest := HopefulCanBeTold(v, m, b);
      OneStep(w, attach);
      RunGoesOn(w, [attach], rest);
      steps := [attach] + rest;
    } else {
      assert Left(w, b) && Earned(w, b);
      steps := PendingCanBeTold(w, m, b);
    }
  }

  // ---- So the table shows whether the tracker can hear of another account ----

  /** In some future the tracker is told of the merchant's store for another account than `a`. */
  ghost predicate CanHearOfAnother(w: World, m: Merchant, a: Account) {
    exists steps: seq<Step>, b :: b != a && ToldOf(Run(w, steps), m, b)
  }

  /**
   * Told of the merchant's store for one account so far, the tracker can still be told of it for another
   * exactly where the table shows a candidate.
   */
  lemma HeardOfAnotherExactly(w: World, m: Merchant, a: Account)
    requires Inv(w) && ToldOf(w, m, a) && forall b | b != a :: !ToldOf(w, m, b)
    ensures CanHearOfAnother(w, m, a) <==> exists b | b in w.merchantOf :: b != a && Candidate(w, m, b)
  {
    TellingAnchors(w, m, a);
    if b :| b in w.merchantOf && b != a && Candidate(w, m, b) {
      var steps := CandidateCanBeTold(w, m, a, b);
    } else {
      forall steps: seq<Step>, b | b != a ensures !ToldOf(Run(w, steps), m, b) {
        NobodyElseIsTold(w, steps, m, a, b);
      }
    }
  }

  /** What is on record leaves no candidate: another's report would find the place taken. */
  lemma OnRecordNobodyElse(w: World, m: Merchant, a: Account)
    requires Inv(w) && Anchored(w, m, a) && Left(w, a)
    ensures forall b | b in w.merchantOf && b != a :: !Candidate(w, m, b)
  {
    assert Earned(w, a);
    forall b | b in w.merchantOf && b != a ensures !Candidate(w, m, b) {
      if HasRows(w, b) && MayName(w, m, b) {
        if w.rows[Key(b, StoreConnected)].state.Waiting? {
          var v := Attached(w, m, b);
          assert FirstCard(v, b) == FirstCard(w, a);
          TakenByA(w, v, m, a);
        } else if Left(w, b) {
          LeftHasACard(w, b);
        }
      }
    }
  }

  lemma TakenByA(w: World, v: World, m: Merchant, a: Account)
    requires a in w.merchantOf && w.merchantOf[a] == Some(m) && Left(w, a)
    requires v.rows == w.rows && a in v.merchantOf && v.merchantOf[a] == Some(m)
    ensures Taken(v, m)
  {
  }

  // ---- After a turn that forgets its post ----

  /** Nobody but the account it posted was told of for the merchant, as the turn leaves it. */
  lemma ForgettingTellsOfOne(w: World, step: Step)
    requires Inv(w) && OnRecord(w) && ForgetsItsPost(w, step)
    ensures var v, a := After(w, step), PostOf(w, step.input).key.account;
            && Inv(v) && a in v.merchantOf && v.merchantOf[a].Some? && ToldOf(v, v.merchantOf[a].value, a)
            && forall b | b != a :: !ToldOf(v, v.merchantOf[a].value, b)
  {
    var v, a := After(w, step), PostOf(w, step.input).key.account;
    ReportTurnKeeps(w, step.input);
    assert v.posts[|w.posts|] == PostOf(w, step.input) && PostOk(v, v.posts[|w.posts|]);
    assert v.posts[|w.posts|].key == Key(a, StoreConnected);
    forall b | b != a ensures !ToldOf(v, v.merchantOf[a].value, b) {
      if ToldOf(v, v.merchantOf[a].value, b) {
        var i :| 0 <= i < |v.posts| && v.posts[i].key == Key(b, StoreConnected);
        ToldBefore(w, v, v.merchantOf[a].value, b, i);
        RecordedIsLeft(w, v.merchantOf[a].value, b, i);
        PostedIsOnlyLeft(w, step.input, b);
      }
    }
  }

  lemma RecordedIsLeft(w: World, m: Merchant, b: Account, i: nat)
    requires Inv(w) && OnRecord(w) && i < |w.posts| && w.posts[i].key == Key(b, StoreConnected)
    ensures b in w.merchantOf && Left(w, b)
  {
    assert Recorded(w, w.posts[i]);
  }

  /** The account a turn posts is the only one of its merchant whose report has left. */
  lemma PostedIsOnlyLeft(w: World, input: ReportInput, b: Account)
    requires Inv(w) && Posts(w, input) && PostOf(w, input).key.event.StoreConnected?
    requires b in w.merchantOf && Left(w, b)
    requires PostOf(w, input).key.account in ReportTurn(w, input).world.merchantOf
    requires ReportTurn(w, input).world.merchantOf[PostOf(w, input).key.account] == w.merchantOf[b]
    ensures b == PostOf(w, input).key.account
  {
    var a, start := PostOf(w, input).key.account, AtStart(w, input);
    PostIsOk(w, input);
    UpToStart(w, input);
    assert Found(w, input) == Key(a, StoreConnected);
    assert Left(start, a) && Earned(start, a);
    assert Earned(w, b);
    assert Advanced(w.rows[Key(b, StoreConnected)], start.rows[Key(b, StoreConnected)]) && Left(start, b);
    NameAtStartIsKept(w, input, a);
  }

  lemma NameAtStartIsKept(w: World, input: ReportInput, a: Account)
    requires Posts(w, input) && a in AtStart(w, input).merchantOf && AtStart(w, input).merchantOf[a].Some?
    requires a in ReportTurn(w, input).world.merchantOf
    ensures ReportTurn(w, input).world.merchantOf[a] == AtStart(w, input).merchantOf[a]
  {
    var others, rest := Meanwhile(w, BeforeCheck(input) + input.starting), input.posting + input.pausing;
    StartLiesOver(w, input);
    MeanwhileSplits(w, BeforeCheck(input) + input.starting, rest);
    assert BeforeCheck(input) + input.starting + rest == Everything(input);
    NamesStay(others, rest, a);
    NameKeptAtEnd(w, input, a);
  }

  /**
   * The promise of one store a merchant, exactly: a run keeps it up to its first turn that forgets its post;
   * from there it can be broken for that merchant if and only if the table left shows another candidate.
   */
  lemma ForgottenIsHeardAgainExactly(steps: seq<Step>, step: Step)
    requires forall n | 0 <= n < |steps| :: !ForgetsItsPost(Run(EMPTY, steps[..n]), steps[n])
    requires ForgetsItsPost(Run(EMPTY, steps), step)
    ensures var v, a := After(Run(EMPTY, steps), step), PostOf(Run(EMPTY, steps), step.input).key.account;
            && a in v.merchantOf && v.merchantOf[a].Some? && ToldOf(v, v.merchantOf[a].value, a)
            && (CanHearOfAnother(v, v.merchantOf[a].value, a) <==>
                  exists b | b in v.merchantOf :: b != a && Candidate(v, v.merchantOf[a].value, b))
  {
    EveryRunKeeps(steps);
    RunsStayOnRecord(steps);
    ForgettingTellsOfOne(Run(EMPTY, steps), step);
    var v, a := After(Run(EMPTY, steps), step), PostOf(Run(EMPTY, steps), step.input).key.account;
    HeardOfAnotherExactly(v, v.merchantOf[a].value, a);
  }
}
