/** Which waiting store reports can still become due, read off the table now and shown to be exact of every future. */
module AdReportHope {
  import opened Options
  import opened AdReportModel
  import opened AdReportSettling
  import opened AdReportTurns
  import opened AdReportInvariants
  import opened AdReportRuns
  import opened AdReportTheorems
  import opened AdReportErasure

  predicate HasRows(w: World, a: Account) {
    a in w.merchantOf && Key(a, StoreConnected) in w.rows && Key(a, Reg) in w.rows
  }

  /** Its registration's report was not, and will not be, delivered. */
  predicate RegistrationLost(w: World, a: Account, t: int)
    requires HasRows(w, a)
  {
    var registration := w.rows[Key(a, Reg)];
    Failed(registration.state) || PastItsTime(registration, t)
  }

  predicate CardLost(w: World, a: Account, t: int)
    requires HasRows(w, a)
  {
    var first, created := FirstCard(w, a), w.rows[Key(a, StoreConnected)].createdAt;
    && first.Some?
    && (|| first.value < created
        || (first.value < created + KEPT_FOR_MS && Taken(w, w.merchantOf[a].value))
        || LastTry(first.value, created) <= t)
  }

  function Later(one: int, other: int): int {
    if one < other then other else one
  }

  /** Its registration's next try, and the spacing after it, already reach past the card's day. */
  predicate NoTimeAfter(w: World, a: Account, t: int)
    requires HasRows(w, a)
  {
    var first, registration := FirstCard(w, a), w.rows[Key(a, Reg)];
    && first.Some? && registration.state.Pending? && registration.nextAttemptAt.Some?
    && LastTry(first.value, w.rows[Key(a, StoreConnected)].createdAt)
         <= Later(t, registration.nextAttemptAt.value) + SPACED_MS
  }

  /** Nothing that can still happen makes the report due, as the table shows at the moment `t`. */
  predicate Hopeless(w: World, a: Account, t: int)
    requires HasRows(w, a)
  {
    || RegistrationLost(w, a, t)
    || CardLost(w, a, t)
    || NoTimeAfter(w, a, t)
    || w.rows[Key(a, StoreConnected)].createdAt + KEPT_FOR_MS <= t
  }

  // ---- Hopeless is for ever ----

  /** Never to be posted: hopeless since `t`, or closed without a try. */
  ghost predicate Doomed(w: World, a: Account, t: int) {
    && HasRows(w, a) && t <= w.clock
    && var row := w.rows[Key(a, StoreConnected)];
       ClosedUntried(row) || (row.state.Waiting? && Hopeless(w, a, t))
  }

  predicate ClosedUntried(row: Row) {
    row.state.Lapsed? || (row.state.GivenUp? && row.attempts == 0)
  }

  lemma TakenStays(v: World, w: World, m: Merchant)
    requires Taken(v, m) && Grows(v, w) && Advances(v, w)
    ensures Taken(w, m)
  {
    var b :| b in v.merchantOf && v.merchantOf[b] == Some(m) && Key(b, StoreConnected) in v.rows
             && !Unsent(v.rows[Key(b, StoreConnected)].state);
    assert Advanced(v.rows[Key(b, StoreConnected)], w.rows[Key(b, StoreConnected)]);
  }

  /** Between two states where the row itself is untouched, or closed untried, doom stays. */
  lemma DoomStays(v: World, w: World, a: Account, t: int)
    requires Doomed(v, a, t) && Grows(v, w) && Advances(v, w)
    requires w.rows[Key(a, StoreConnected)] == v.rows[Key(a, StoreConnected)] || ClosedUntried(w.rows[Key(a, StoreConnected)])
    requires PastItsTime(v.rows[Key(a, Reg)], t) || NoTimeAfter(v, a, t) ==>
               w.rows[Key(a, Reg)] == v.rows[Key(a, Reg)] || Failed(w.rows[Key(a, Reg)].state)
    ensures Doomed(w, a, t)
  {
    assert Advanced(v.rows[Key(a, Reg)], w.rows[Key(a, Reg)]);
    if v.rows[Key(a, StoreConnected)].state.Waiting? && CardLost(v, a, t)
       && Taken(v, v.merchantOf[a].value) {
      TakenStays(v, w, v.merchantOf[a].value);
    }
  }

  lemma HopelessIsNotDue(w: World, at: int, promote: bool, skips: set<Account>, a: Account, t: int)
    requires InWaiting(w, skips, a) && Hopeless(w, a, t) && t <= at
    ensures !FateOf(w, at, promote, skips, a).Due?
  {
  }

  /** What settling leaves of a row it found doomed. */
  lemma SettledRowOfTheDoomed(w: World, at: int, promote: bool, skips: set<Account>, a: Account, t: int)
    requires RowsInv(w) && Doomed(w, a, t) && t <= at
    ensures var k := Key(a, StoreConnected);
            var row := Settled(w, at, promote, skips).rows[k];
            row == w.rows[k] || ClosedUntried(row)
  {
    var k := Key(a, StoreConnected);
    assert RowOk(k, w.rows[k], w.clock);
    if k in SettleWrites(w, at, promote, skips) {
      HopelessIsNotDue(w, at, promote, skips, a, t);
    }
  }

  // ---- Rows a turn does not take ----

  lemma MeanwhileDoomed(w: World, changes: seq<Change>, a: Account, t: int)
    requires TableInv(w) && Doomed(w, a, t)
    ensures Doomed(Meanwhile(w, changes), a, t)
  {
    MeanwhileKeeps(w, changes);
    MeanwhileAdvances(w, changes);
    DoomStays(w, Meanwhile(w, changes), a, t);
  }

  /** At the lock the doomed row is as it was, or closed; its registration's row is as it was. */
  lemma LockedRowOfTheDoomed(w: World, input: ReportInput, a: Account, t: int)
    requires TableInv(w) && Doomed(w, a, t)
    ensures Key(a, StoreConnected) in AtLock(w, input).rows && Key(a, Reg) in AtLock(w, input).rows
    ensures AtLock(w, input).rows[Key(a, Reg)] == w.rows[Key(a, Reg)]
    ensures var row := AtLock(w, input).rows[Key(a, StoreConnected)];
            row == w.rows[Key(a, StoreConnected)] || ClosedUntried(row)
  {
    var read := Meanwhile(w, input.settling);
    MeanwhileKeeps(w, input.settling);
    MeanwhileDoomed(w, input.settling, a, t);
    SettledRowOfTheDoomed(read, w.clock, true, input.settleSkips, a, t);
    var settled := Settled(read, w.clock, true, input.settleSkips);
    RowsStay(settled, input.selecting, Key(a, StoreConnected));
    RowsStay(settled, input.selecting, Key(a, Reg));
    RowsStay(AtSelect(w, input), input.locking, Key(a, StoreConnected));
    RowsStay(AtSelect(w, input), input.locking, Key(a, Reg));
  }

  lemma OtherRowsAtEnd(w: World, input: ReportInput, k: Key)
    requires Posts(w, input) && k in AtLock(w, input).rows && k != Found(w, input)
    ensures k in AtEnd(w, input).rows && AtEnd(w, input).rows[k] == AtLock(w, input).rows[k]
  {
    RowsStay(AtLock(w, input), input.checking, k);
    RowsStay(AtCheck(w, input), input.starting, k);
    RowsStay(Posted(w, input), input.posting, k);
    var answered := AtAnswer(w, input);
    RowsStay(WithRow(answered, Found(w, input), AfterAnswer(FoundRow(w, input), input.answer, answered.clock)), input.pausing, k);
  }

  /** The doomed row is not the one a turn takes, and a registration past its time is not posted. */
  lemma DoomedIsNotFound(w: World, input: ReportInput, a: Account, t: int)
    requires TableInv(w) && Doomed(w, a, t) && Finds(w, input)
    ensures Found(w, input) != Key(a, StoreConnected)
    ensures Found(w, input) == Key(a, Reg) && PastItsTime(w.rows[Key(a, Reg)], t) ==> TooLate(w, input)
  {
    LockedRowOfTheDoomed(w, input, a, t);
    CheckTakes(w, input);
    assert IsDue(AtLock(w, input), SelectAt(w, input), input.dueSkips, Found(w, input));
  }

  lemma DoomLater(w: World, a: Account, t: int, u: int)
    requires Doomed(w, a, t) && t <= u <= w.clock
    ensures Doomed(w, a, u)
  {
  }

  ghost predicate RegistrationPosted(w: World, input: ReportInput, a: Account) {
    Posts(w, input) && !input.failure.Recording? && Found(w, input) == Key(a, Reg)
  }

  lemma StoreRowOfTheDoomed(w: World, input: ReportInput, a: Account)
    requires TableInv(w) && Doomed(w, a, w.clock)
    ensures var v := ReportTurn(w, input).world;
            && Key(a, StoreConnected) in v.rows
            && (v.rows[Key(a, StoreConnected)] == w.rows[Key(a, StoreConnected)] || ClosedUntried(v.rows[Key(a, StoreConnected)]))
  {
    LockedRowOfTheDoomed(w, input, a, w.clock);
    if Finds(w, input) { DoomedIsNotFound(w, input, a, w.clock); }
    RowsAfterTheTurn(w, input, Key(a, StoreConnected));
  }

  lemma RegistrationOfTheDoomed(w: World, input: ReportInput, a: Account)
    requires TableInv(w) && Doomed(w, a, w.clock)
    requires NoTimeAfter(w, a, w.clock) ==> !RegistrationPosted(w, input, a)
    ensures var v, k := ReportTurn(w, input).world, Key(a, Reg);
            && k in v.rows
            && (PastItsTime(w.rows[k], w.clock) || NoTimeAfter(w, a, w.clock) ==>
                  v.rows[k] == w.rows[k] || Failed(v.rows[k].state))
  {
    LockedRowOfTheDoomed(w, input, a, w.clock);
    if Finds(w, input) { DoomedIsNotFound(w, input, a, w.clock); }
    RowsStay(w, Everything(input), Key(a, Reg));
    RowsAfterTheTurn(w, input, Key(a, Reg));
  }

  lemma ReportingDoomed(w: World, input: ReportInput, a: Account)
    requires Inv(w) && Doomed(w, a, w.clock)
    ensures Doomed(ReportTurn(w, input).world, a, ReportTurn(w, input).world.clock)
  {
    var v := ReportTurn(w, input).world;
    ReportTurnKeeps(w, input);
    StoreRowOfTheDoomed(w, input, a);
    if NoTimeAfter(w, a, w.clock) && RegistrationPosted(w, input, a) {
      RegistrationPostedTooLate(w, input, a);
    } else {
      RegistrationOfTheDoomed(w, input, a);
      DoomStays(w, v, a, w.clock);
      DoomLater(v, a, w.clock, v.clock);
    }
  }

  /** A registration posted too late for its store report, however the tracker answers. */
  lemma RegistrationPostedTooLate(w: World, input: ReportInput, a: Account)
    requires Inv(w) && Doomed(w, a, w.clock) && NoTimeAfter(w, a, w.clock)
    requires Posts(w, input) && !input.failure.Recording? && Found(w, input) == Key(a, Reg)
    requires Grows(w, AtEnd(w, input)) && LockFree(AtEnd(w, input)) && AtEnd(w, input).posts == w.posts + [PostOf(w, input)]
    requires Key(a, StoreConnected) in AtEnd(w, input).rows
    requires var row := AtEnd(w, input).rows[Key(a, StoreConnected)];
             ClosedUntried(row) || row == w.rows[Key(a, StoreConnected)]
    ensures Doomed(AtEnd(w, input), a, AtEnd(w, input).clock)
  {
    var end := AtEnd(w, input);
    PostedNoSooner(w, input, a);
    RegistrationStaysAtEnd(w, input, a);
    assert end.posts[|end.posts| - 1].startedAt == AtStart(w, input).clock;
    DoomedByTheClock(w, end, a);
  }

  /** The post begins no sooner than the registration's next try, nor than the turn. */
  lemma PostedNoSooner(w: World, input: ReportInput, a: Account)
    requires Inv(w) && Doomed(w, a, w.clock) && Posts(w, input) && Found(w, input) == Key(a, Reg)
    requires w.rows[Key(a, Reg)].nextAttemptAt.Some?
    ensures Later(w.clock, w.rows[Key(a, Reg)].nextAttemptAt.value) <= AtStart(w, input).clock
  {
    LockedRowOfTheDoomed(w, input, a, w.clock);
    assert IsDue(AtLock(w, input), SelectAt(w, input), input.dueSkips, Key(a, Reg));
    UpToStart(w, input);
  }

  lemma RegistrationStaysAtEnd(w: World, input: ReportInput, a: Account)
    requires Posts(w, input) && Found(w, input) == Key(a, Reg)
    ensures Key(a, Reg) in AtEnd(w, input).rows
  {
    FoundStaysAtEnd(w, input);
  }

  /** Once the clock has passed the card's day, the report is doomed by the card alone. */
  lemma DoomedByTheClock(w: World, end: World, a: Account)
    requires Doomed(w, a, w.clock) && NoTimeAfter(w, a, w.clock)
    requires Grows(w, end) && Key(a, Reg) in end.rows && Key(a, StoreConnected) in end.rows
    requires Later(w.clock, w.rows[Key(a, Reg)].nextAttemptAt.value) + SPACED_MS <= end.clock
    requires var row := end.rows[Key(a, StoreConnected)]; ClosedUntried(row) || row == w.rows[Key(a, StoreConnected)]
    ensures Doomed(end, a, end.clock)
  {
    assert FirstCard(end, a) == FirstCard(w, a);
    assert end.rows[Key(a, StoreConnected)].state.Waiting? ==> CardLost(end, a, end.clock);
  }

  /** What a turn leaves of a row the table held: as it was at the lock or before the turn, or what the turn made of its own. */
  lemma RowsAfterTheTurn(w: World, input: ReportInput, k: Key)
    requires k in w.rows && k in AtLock(w, input).rows
    ensures var v := ReportTurn(w, input).world;
            && k in v.rows
            && (|| v.rows[k] == AtLock(w, input).rows[k]
                || v.rows[k] == w.rows[k]
                || (Finds(w, input) && k == Found(w, input)
                    && (if TooLate(w, input) then v.rows[k].state.GivenUp? else Posts(w, input) && !input.failure.Recording?)))
  {
    RowsStay(w, Everything(input), k);
    RowsStay(w, BeforeCheck(input), k);
    RowsStay(AtLock(w, input), input.checking, k);
    if Posts(w, input) && k != Found(w, input) { OtherRowsAtEnd(w, input, k); }
    if Posts(w, input) && k == Found(w, input) { FoundStaysAtEnd(w, input); }
  }

  lemma FoundStaysAtEnd(w: World, input: ReportInput)
    requires Posts(w, input)
    ensures Found(w, input) in AtEnd(w, input).rows
  {
    var answered := AtAnswer(w, input);
    RowsStay(WithRow(answered, Found(w, input), AfterAnswer(FoundRow(w, input), input.answer, answered.clock)), input.pausing, Found(w, input));
  }

  lemma ExpiringDoomed(w: World, input: ExpireInput, a: Account)
    requires Inv(w) && Doomed(w, a, w.clock)
    ensures Doomed(ExpireTurn(w, input).world, a, ExpireTurn(w, input).world.clock)
  {
    var v := ExpireTurn(w, input).world;
    ExpireTurnKeeps(w, input);
    if input.fails { RolledBackRowsOfTheDoomed(w, input, a); } else { ReadRowsOfTheDoomed(w, input, a); }
    DoomStays(w, v, a, w.clock);
    DoomLater(v, a, w.clock, v.clock);
  }

  lemma RolledBackRowsOfTheDoomed(w: World, input: ExpireInput, a: Account)
    requires Doomed(w, a, w.clock) && input.fails
    ensures var rows := ExpireTurn(w, input).world.rows;
            && Key(a, StoreConnected) in rows && rows[Key(a, StoreConnected)] == w.rows[Key(a, StoreConnected)]
            && Key(a, Reg) in rows && rows[Key(a, Reg)] == w.rows[Key(a, Reg)]
  {
    RowsStay(w, input.giving + input.between + input.settling, Key(a, StoreConnected));
    RowsStay(w, input.giving + input.between + input.settling, Key(a, Reg));
  }

  lemma ReadRowsOfTheDoomed(w: World, input: ExpireInput, a: Account)
    requires Inv(w) && Doomed(w, a, w.clock) && !input.fails
    ensures var rows := ExpireTurn(w, input).world.rows;
            && Key(a, StoreConnected) in rows && Key(a, Reg) in rows
            && (rows[Key(a, StoreConnected)] == w.rows[Key(a, StoreConnected)] || ClosedUntried(rows[Key(a, StoreConnected)]))
            && (rows[Key(a, Reg)] == w.rows[Key(a, Reg)] || Failed(rows[Key(a, Reg)].state))
  {
    ReadByTheSecond(w, input, Key(a, StoreConnected));
    ReadByTheSecond(w, input, Key(a, Reg));
    ReadOfTheDoomed(w, input, a, w.clock);
  }

  lemma ReadOfTheDoomed(w: World, input: ExpireInput, a: Account, t: int)
    requires Inv(w) && Doomed(w, a, t) && !input.fails
    ensures Key(a, StoreConnected) in ExpireTurn(w, input).world.rows
    ensures var row := ExpireTurn(w, input).world.rows[Key(a, StoreConnected)];
            row == w.rows[Key(a, StoreConnected)] || ClosedUntried(row)
  {
    var before := BeforeSettling(w, input);
    var read := Meanwhile(before, input.settling);
    ExpireReads(w, input);
    ReadByTheSecond(w, input, Key(a, StoreConnected));
    ReadByTheSecond(w, input, Key(a, Reg));
    MeanwhileKeeps(before, input.settling);
    MeanwhileAdvances(before, input.settling);
    GrowsOn(w, before, read);
    AdvancesOn(w, before, read);
    DoomStays(w, read, a, t);
    SettledRowOfTheDoomed(read, before.clock, false, input.skips, a, t);
  }

  predicate Spares(steps: seq<Step>, a: Account) {
    forall i | 0 <= i < |steps| :: steps[i].Delete? ==> steps[i].account != a
  }

  lemma ChangingDoomed(w: World, c: Change, a: Account)
    requires Inv(w) && Doomed(w, a, w.clock)
    ensures Doomed(Changed(w, c), a, Changed(w, c).clock)
  {
    ChangingKeeps(w, c);
    RowsStay(w, [c], Key(a, StoreConnected));
    RowsStay(w, [c], Key(a, Reg));
    assert Meanwhile(w, [c]) == Changed(w, c);
    DoomStays(w, Changed(w, c), a, w.clock);
    DoomLater(Changed(w, c), a, w.clock, Changed(w, c).clock);
  }

  lemma StepDoomed(w: World, step: Step, a: Account)
    requires Inv(w) && Doomed(w, a, w.clock) && !(step.Delete? && step.account == a)
    ensures Doomed(After(w, step), a, After(w, step).clock)
  {
    match step
    case Between(c) => ChangingDoomed(w, c, a);
    case Delete(b) => DeletingOthersDoomed(w, b, a, w.clock);
    case Report(input) => ReportingDoomed(w, input, a);
    case Expire(input) => ExpiringDoomed(w, input, a);
  }

  /** A hopeless report never becomes due, whatever happens, and is never posted. */
  lemma {:induction false} DoomIsForever(w: World, steps: seq<Step>, a: Account)
    requires Inv(w) && Doomed(w, a, w.clock) && Spares(steps, a)
    ensures Doomed(Run(w, steps), a, Run(w, steps).clock)
  {
    if steps != [] {
      var shorter := steps[..|steps| - 1];
      DoomIsForever(w, shorter, a);
      RunKeeps(w, shorter);
      StepDoomed(Run(w, shorter), steps[|steps| - 1], a);
    }
  }

  lemma DeletingOthersDoomed(w: World, b: Account, a: Account, t: int)
    requires Inv(w) && Doomed(w, a, t) && a != b
    ensures Doomed(Deleted(w, b), a, t)
  {
    var v := Deleted(w, b);
    if CardLost(w, a, t) && Taken(w, w.merchantOf[a].value) {
      var c :| c in w.merchantOf && w.merchantOf[c] == w.merchantOf[a] && Key(c, StoreConnected) in w.rows
               && !Unsent(w.rows[Key(c, StoreConnected)].state);
      assert v != w ==> c != b;
      assert Taken(v, w.merchantOf[a].value);
    }
  }

  // ---- What is not hopeless can become due ----

  /** A turn that settles this account's report alone, and takes nothing. */
  function Alone(w: World, a: Account): ReportInput {
    ReportInput([], w.merchantOf.Keys - {a}, [], [], w.rows.Keys, [], [], Status(200), [], [], Nowhere)
  }

  lemma AloneBecomesDue(w: World, a: Account)
    requires Inv(w) && HasRows(w, a) && w.rows[Key(a, StoreConnected)].state.Waiting?
    requires !Hopeless(w, a, w.clock) && FirstCard(w, a).Some? && w.rows[Key(a, Reg)].state.Delivered?
    ensures var v := After(w, Report(Alone(w, a)));
            Key(a, StoreConnected) in v.rows && v.rows[Key(a, StoreConnected)].state.Pending?
  {
    var input := Alone(w, a);
    var v := Settled(w, w.clock, true, input.settleSkips);
    FirstCardIsPast(w, a);
    assert Eligible(w, input.settleSkips, a);
    assert Holds(w, input.settleSkips, a);
    assert FateOf(w, w.clock, true, input.settleSkips, a).Due?;
    assert v.rows[Key(a, StoreConnected)].state.Pending?;
    assert AtLock(w, input) == v;
    assert !Finds(w, input);
  }

  /** A merchant nobody names and that published nothing. */
  lemma {:induction false} SomeoneNew(used: set<Merchant>) returns (m: Merchant)
    ensures forall n | n in used :: n < m
  {
    m := 0;
    if n :| n in used {
      m := SomeoneNew(used - {n});
      assert used == (used - {n}) + {n};
      if m <= n { m := n + 1; }
    }
  }

  function NamedOrPublishing(w: World): set<Merchant> {
    w.cards.Keys + set a | a in w.merchantOf && w.merchantOf[a].Some? :: w.merchantOf[a].value
  }

  /** With its registration delivered and no card yet, a merchant and its first card are all it needs. */
  lemma DeliveredCanBecomeDue(w: World, a: Account) returns (steps: seq<Step>)
    requires Inv(w) && HasRows(w, a) && w.rows[Key(a, StoreConnected)].state.Waiting?
    requires !Hopeless(w, a, w.clock) && w.rows[Key(a, Reg)].state.Delivered?
    ensures Spares(steps, a)
    ensures Key(a, StoreConnected) in Run(w, steps).rows && Run(w, steps).rows[Key(a, StoreConnected)].state.Pending?
  {
    if FirstCard(w, a).Some? {
      AloneBecomesDue(w, a);
      steps := [Report(Alone(w, a))];
      assert steps[..0] == [];
      assert Run(w, steps) == After(w, Report(Alone(w, a)));
    } else if w.merchantOf[a].Some? {
      steps := PublishingMakesDue(w, a);
    } else {
      var m := SomeoneNew(NamedOrPublishing(w));
      var v := Changed(w, Attach(a, m));
      ChangingKeeps(w, Attach(a, m));
      assert FirstCard(v, a).None?;
      var rest := PublishingMakesDue(v, a);
      steps := [Between(Attach(a, m))] + rest;
      RunGoesOn(w, [Between(Attach(a, m))], rest);
      assert [Between(Attach(a, m))][..0] == [];
      assert Run(w, [Between(Attach(a, m))]) == v;
    }
  }

  lemma PublishingMakesDue(w: World, a: Account) returns (steps: seq<Step>)
    requires Inv(w) && HasRows(w, a) && w.rows[Key(a, StoreConnected)].state.Waiting?
    requires w.merchantOf[a].Some? && FirstCard(w, a).None? && w.rows[Key(a, Reg)].state.Delivered?
    requires w.clock < w.rows[Key(a, StoreConnected)].createdAt + KEPT_FOR_MS
    ensures Spares(steps, a)
    ensures Key(a, StoreConnected) in Run(w, steps).rows && Run(w, steps).rows[Key(a, StoreConnected)].state.Pending?
  {
    var m := w.merchantOf[a].value;
    var c := Between(Publish(m));
    var v := Changed(w, Publish(m));
    assert m in w.cards ==> Past(w.cards[m], w.clock);
    var none: seq<int> := [];
    assert none + [w.clock] == [w.clock];
    assert FirstCard(v, a) == Some(w.clock) by { assert v.cards[m] == [w.clock]; }
    assert !Taken(v, m) by { NobodyTookWithoutACard(w, a); }
    ChangingKeeps(w, Publish(m));
    assert RowOk(Key(a, StoreConnected), w.rows[Key(a, StoreConnected)], w.clock);
    AloneBecomesDue(v, a);
    steps := [c, Report(Alone(v, a))];
    assert steps[..1] == [c] && [c][..0] == [];
    assert Run(w, [c]) == v;
    assert Run(w, steps) == After(v, Report(Alone(v, a)));
  }

  lemma NobodyTookWithoutACard(w: World, a: Account)
    requires Inv(w) && a in w.merchantOf && w.merchantOf[a].Some? && FirstCard(w, a).None?
    ensures !Taken(w, w.merchantOf[a].value)
  {
    forall b | b in w.merchantOf && w.merchantOf[b] == w.merchantOf[a] ensures !Left(w, b) {
      assert FirstCard(w, b) == FirstCard(w, a);
      if Left(w, b) { LeftHasACard(w, b); }
    }
  }

  lemma LeftHasACard(w: World, b: Account)
    requires Inv(w) && b in w.merchantOf && Left(w, b)
    ensures FirstCard(w, b).Some?
  {
    assert Earned(w, b);
  }

  lemma {:induction false} RunGoesOn(w: World, one: seq<Step>, other: seq<Step>)
    ensures Run(w, one + other) == Run(Run(w, one), other)
    decreases |other|
  {
    if other == [] {
      assert one + other == one;
    } else {
      var last := |other| - 1;
      assert (one + other)[..|one + other| - 1] == one + other[..last];
      RunGoesOn(w, one, other[..last]);
    }
  }

  /** A turn that takes this account's registration and settles nothing. */
  function RegistrationAlone(w: World, a: Account): ReportInput {
    ReportInput([], w.merchantOf.Keys, [], [], w.rows.Keys - {Key(a, Reg)}, [], [], Status(200), [], [], Nowhere)
  }

  lemma RegistrationIsDelivered(w: World, a: Account)
    requires Inv(w) && HasRows(w, a) && w.rows[Key(a, Reg)].state.Pending?
    requires w.rows[Key(a, Reg)].nextAttemptAt.value <= w.clock && !PastItsTime(w.rows[Key(a, Reg)], w.clock)
    ensures var v := After(w, Report(RegistrationAlone(w, a)));
            var k := Key(a, Reg);
            && v == w.(rows := w.rows[k := v.rows[k]], clock := w.clock + SPACED_MS, posts := v.posts)
            && v.rows[k].state.Delivered?
  {
    var input, k := RegistrationAlone(w, a), Key(a, Reg);
    assert RowOk(k, w.rows[k], w.clock);
    assert SettleWrites(w, w.clock, true, w.merchantOf.Keys) == map[];
    assert w.rows + map[] == w.rows;
    assert AtLock(w, input) == w && SelectAt(w, input) == w.clock;
    assert IsDue(w, w.clock, input.dueSkips, k);
    assert Found(w, input) == k;
  }

  /** Delivered at its next try, a registration leaves its store report the hope it had. */
  lemma DeliveryKeepsHope(w: World, v: World, a: Account)
    requires Inv(w) && HasRows(w, a) && w.rows[Key(a, StoreConnected)].state.Waiting?
    requires !Hopeless(w, a, w.clock) && w.rows[Key(a, Reg)].state.Pending?
    requires Key(a, Reg) in v.rows && v.rows[Key(a, Reg)].state.Delivered?
    requires v == w.(rows := w.rows[Key(a, Reg) := v.rows[Key(a, Reg)]], posts := v.posts, clock := v.clock)
    requires v.clock == Later(w.clock, w.rows[Key(a, Reg)].nextAttemptAt.value) + SPACED_MS
    ensures HasRows(v, a) && v.rows[Key(a, StoreConnected)] == w.rows[Key(a, StoreConnected)]
    ensures !Hopeless(v, a, v.clock)
  {
    assert RowOk(Key(a, Reg), w.rows[Key(a, Reg)], w.clock) && Paired(w, a);
    assert FirstCard(v, a) == FirstCard(w, a);
  }

  /** Time passes until the registration's next try. */
  function AtNextTry(w: World, a: Account): World
    requires HasRows(w, a) && w.rows[Key(a, Reg)].nextAttemptAt.Some?
  {
    w.(clock := Later(w.clock, w.rows[Key(a, Reg)].nextAttemptAt.value))
  }

  lemma NextTryDelivers(w: World, a: Account)
    requires Inv(w) && HasRows(w, a) && w.rows[Key(a, Reg)].state.Pending? && w.rows[Key(a, Reg)].nextAttemptAt.Some?
    requires !RegistrationLost(w, a, w.clock)
    ensures var u := AtNextTry(w, a);
            var v, k := After(u, Report(RegistrationAlone(u, a))), Key(a, Reg);
            && k in v.rows && v.rows[k].state.Delivered?
            && v == w.(rows := w.rows[k := v.rows[k]], posts := v.posts, clock := u.clock + SPACED_MS)
            && Inv(v)
  {
    var u := AtNextTry(w, a);
    assert RowOk(Key(a, Reg), w.rows[Key(a, Reg)], w.clock);
    ChangingKeeps(w, Tick(u.clock - w.clock));
    assert Changed(w, Tick(u.clock - w.clock)) == u;
    RegistrationIsDelivered(u, a);
    StepKeeps(u, Report(RegistrationAlone(u, a)));
  }

  lemma PendingCanBeDelivered(w: World, a: Account) returns (steps: seq<Step>)
    requires Inv(w) && HasRows(w, a) && w.rows[Key(a, StoreConnected)].state.Waiting?
    requires !Hopeless(w, a, w.clock) && w.rows[Key(a, Reg)].state.Pending?
    ensures Spares(steps, a)
    ensures var v := Run(w, steps);
            && Inv(v) && HasRows(v, a) && v.rows[Key(a, StoreConnected)].state.Waiting?
            && !Hopeless(v, a, v.clock) && v.rows[Key(a, Reg)].state.Delivered?
  {
    assert RowOk(Key(a, Reg), w.rows[Key(a, Reg)], w.clock);
    var u := AtNextTry(w, a);
    var tick, turn := Between(Tick(u.clock - w.clock)), Report(RegistrationAlone(u, a));
    NextTryDelivers(w, a);
    DeliveryKeepsHope(w, After(u, turn), a);
    steps := [tick, turn];
    assert After(w, tick) == u;
    TwoSteps(w, tick, turn);
  }

  lemma TwoSteps(w: World, one: Step, other: Step)
    ensures Run(w, [one, other]) == After(After(w, one), other)
  {
    assert [one, other][..1] == [one] && [one][..0] == [];
    assert Run(w, [one]) == After(w, one);
  }

  /** A waiting report can become due in some future exactly while it is not hopeless. */
  lemma HopeIsExact(w: World, a: Account)
    requires Inv(w) && HasRows(w, a) && w.rows[Key(a, StoreConnected)].state.Waiting?
    ensures !Hopeless(w, a, w.clock) <==>
              exists steps: seq<Step> :: Spares(steps, a) && MakesDue(w, steps, a)
  {
    if Hopeless(w, a, w.clock) {
      forall steps: seq<Step> | Spares(steps, a) ensures !MakesDue(w, steps, a) {
        DoomIsForever(w, steps, a);
      }
    } else {
      assert RowOk(Key(a, Reg), w.rows[Key(a, Reg)], w.clock);
      if w.rows[Key(a, Reg)].state.Delivered? {
        var steps := DeliveredCanBecomeDue(w, a);
        assert MakesDue(w, steps, a);
      } else {
        var one := PendingCanBeDelivered(w, a);
        var other := DeliveredCanBecomeDue(Run(w, one), a);
        RunGoesOn(w, one, other);
        assert Spares(one + other, a) && MakesDue(w, one + other, a);
      }
    }
  }

  ghost predicate MakesDue(w: World, steps: seq<Step>, a: Account) {
    && Key(a, StoreConnected) in Run(w, steps).rows
    && Run(w, steps).rows[Key(a, StoreConnected)].state.Pending?
  }

  // ---- What settling makes of hope ----

  /** The times a settling does not look at in a report it leaves waiting. */
  predicate Outrun(w: World, a: Account, at: int)
    requires HasRows(w, a)
  {
    || PastItsTime(w.rows[Key(a, Reg)], at)
    || NoTimeAfter(w, a, at)
    || (FirstCard(w, a).Some? && LastTry(FirstCard(w, a).value, w.rows[Key(a, StoreConnected)].createdAt) <= at)
  }

  /**
   * Settling makes due only what has hope, gives up only what has none, and lapses what has none or
   * what another registration of its merchant, sooner and eligible, keeps the place from. What it
   * leaves waiting has hope unless its times ran out, which settling does not look at; with reporting
   * on and the registration delivered, it always has.
   */
  lemma SettlingWeighsHope(w: World, at: int, promote: bool, skips: set<Account>, a: Account)
    requires TableInv(w) && InWaiting(w, skips, a)
    ensures match FateOf(w, at, promote, skips, a)
            case Due => !Hopeless(w, a, at)
            case Late => Hopeless(w, a, at)
            case Lapse(_) =>
              Hopeless(w, a, at) || KeptFromIt(w, skips, a)
            case Stay =>
              && (Hopeless(w, a, at) <==> Outrun(w, a, at))
              && (promote && w.rows[Key(a, Reg)].state.Delivered? ==> !Hopeless(w, a, at))
  {
    assert RowOk(Key(a, StoreConnected), w.rows[Key(a, StoreConnected)], w.clock);
    assert RowOk(Key(a, Reg), w.rows[Key(a, Reg)], w.clock) && Paired(w, a);
    FirstCardIsPast(w, a);
    if Eligible(w, skips, a) && !Holds(w, skips, a) {
      var b :| b in w.merchantOf && Eligible(w, skips, b) && w.merchantOf[b] == w.merchantOf[a] && b != a && !Sooner(w, a, b);
      assert Sooner(w, b, a);
    }
  }

  /**
   * Where a report without hope is left waiting, read off the table: its registration has not failed and
   * its thirty days run on; it holds its merchant's place while it may not be posted, or no card has yet
   * come in time to settle who holds it; and one of its other times is over.
   */
  predicate LeftWithoutHope(w: World, at: int, promote: bool, skips: set<Account>, a: Account)
    requires HasRows(w, a)
  {
    var row, registration, first := w.rows[Key(a, StoreConnected)], w.rows[Key(a, Reg)].state, FirstCard(w, a);
    && !Failed(registration) && at < row.createdAt + KEPT_FOR_MS && Outrun(w, a, at)
    && (if Holds(w, skips, a) then !(registration.Delivered? && promote)
        else first.None? || first.value >= row.createdAt + KEPT_FOR_MS)
  }

  /** A report without hope is closed by the settling exactly where the table does not say so. */
  lemma HopelessIsClosedUnless(w: World, at: int, promote: bool, skips: set<Account>, a: Account)
    requires TableInv(w) && InWaiting(w, skips, a)
    ensures Hopeless(w, a, at) && FateOf(w, at, promote, skips, a).Stay? <==> LeftWithoutHope(w, at, promote, skips, a)
  {
    SettlingWeighsHope(w, at, promote, skips, a);
  }

  /** Of the reports without hope, those still open afterwards are the ones the table says are left. */
  ghost predicate ClosesTheHopeless(w: World, v: World, at: int, promote: bool, skips: set<Account>) {
    forall a | InWaiting(w, skips, a) && Hopeless(w, a, at) ::
      && Key(a, StoreConnected) in v.rows
      && (Open(v.rows[Key(a, StoreConnected)].state) <==> LeftWithoutHope(w, at, promote, skips, a))
  }

  lemma SettlingClosesTheHopeless(w: World, at: int, promote: bool, skips: set<Account>)
    requires TableInv(w)
    ensures ClosesTheHopeless(w, Settled(w, at, promote, skips), at, promote, skips)
  {
    forall a | InWaiting(w, skips, a) && Hopeless(w, a, at)
      ensures var v := Settled(w, at, promote, skips);
              && Key(a, StoreConnected) in v.rows
              && (Open(v.rows[Key(a, StoreConnected)].state) <==> LeftWithoutHope(w, at, promote, skips, a))
    {
      SettlingWeighsHope(w, at, promote, skips, a);
      HopelessIsClosedUnless(w, at, promote, skips, a);
    }
  }

  /** Whether another registration of the same merchant, sooner and eligible, keeps the place from a report. */
  predicate KeptFromIt(w: World, skips: set<Account>, a: Account)
    requires HasRows(w, a)
  {
    exists b | b in w.merchantOf ::
      b != a && w.merchantOf[b] == w.merchantOf[a] && Eligible(w, skips, b) && Sooner(w, b, a)
  }

  /** A report with hope lapses exactly where another registration of its merchant keeps the place from it. */
  lemma HopefulLapsesOnlyBehindAnother(w: World, at: int, promote: bool, skips: set<Account>, a: Account)
    requires TableInv(w) && InWaiting(w, skips, a) && !Hopeless(w, a, at)
    ensures FateOf(w, at, promote, skips, a).Lapse? <==> KeptFromIt(w, skips, a)
  {
    SettlingWeighsHope(w, at, promote, skips, a);
    if KeptFromIt(w, skips, a) {
      var b :| b in w.merchantOf && b != a && w.merchantOf[b] == w.merchantOf[a] && Eligible(w, skips, b) && Sooner(w, b, a);
      assert FirstCard(w, b) == FirstCard(w, a);
      assert !Holds(w, skips, a);
    }
  }

  /**
   * With its registration delivered and its card there, a settling makes a report due exactly where it has
   * hope and nothing else the settling reads keeps the place from it, whichever rows it had to skip.
   */
  lemma DueUnlessKeptFromIt(w: World, at: int, skips: set<Account>, a: Account)
    requires TableInv(w) && InWaiting(w, skips, a) && w.rows[Key(a, Reg)].state.Delivered?
    requires FirstCard(w, a).Some? && FirstCard(w, a).value <= at
    ensures FateOf(w, at, true, skips, a).Due? <==> !Hopeless(w, a, at) && !KeptFromIt(w, skips, a)
  {
    SettlingWeighsHope(w, at, true, skips, a);
    if !Hopeless(w, a, at) { HopefulLapsesOnlyBehindAnother(w, at, true, skips, a); }
    if FateOf(w, at, true, skips, a).Due? { HolderIsNotKeptFromIt(w, skips, a); }
  }

  lemma HolderIsNotKeptFromIt(w: World, skips: set<Account>, a: Account)
    requires Holds(w, skips, a)
    ensures !KeptFromIt(w, skips, a)
  {
  }

  /** The report left waiting is as hopeless after the settling as before: nobody took its place. */
  lemma LeftWaitingAsItWas(w: World, at: int, promote: bool, skips: set<Account>, a: Account)
    requires TableInv(w) && InWaiting(w, skips, a) && FateOf(w, at, promote, skips, a).Stay?
    ensures var v := Settled(w, at, promote, skips);
            && HasRows(v, a) && v.rows[Key(a, StoreConnected)].state.Waiting?
            && (Hopeless(v, a, at) <==> Hopeless(w, a, at))
  {
    var v := Settled(w, at, promote, skips);
    assert FirstCard(v, a) == FirstCard(w, a);
    assert v.rows[Key(a, Reg)] == w.rows[Key(a, Reg)];
    if Holds(w, skips, a) { NoOneElseTakes(w, at, promote, skips, a); }
  }

  /** The report that holds its merchant's place finds it untaken after the settling, if it still waits. */
  lemma NoOneElseTakes(w: World, at: int, promote: bool, skips: set<Account>, a: Account)
    requires TableInv(w) && Holds(w, skips, a)
    requires Settled(w, at, promote, skips).rows[Key(a, StoreConnected)].state.Waiting?
    ensures !Taken(Settled(w, at, promote, skips), w.merchantOf[a].value)
  {
    var v := Settled(w, at, promote, skips);
    forall b | b in v.merchantOf && v.merchantOf[b] == w.merchantOf[a] ensures !Left(v, b) {
      if Left(v, b) {
        SettledLeft(w, at, promote, skips, b);
        OneIsLeft(w, skips, a, b);
      }
    }
  }

  // ---- Three tables where settling and hope part ----

  const CLICK: Option<string> := Some("click")

  function StillWaiting(at: int): Row {
    Row(Waiting, CLICK, 0, None, None, at, None, None)
  }

  function RegisteredAt(at: int, state: State): Row {
    if state.Delivered? then Row(Delivered, None, 1, None, Some(Http(200)), at, Some(at), Some(at))
    else Row(Pending, CLICK, 0, Some(at), None, at, Some(at), None)
  }

  /** An account registered and told of, its merchant's first card a day old. */
  const DAY_OLD := World(
    map[Key(1, Reg) := RegisteredAt(0, Delivered), Key(1, StoreConnected) := StillWaiting(0)],
    map[1 := Some(7)], map[7 := [0]], RETRIED_FOR_MS, [])

  /** An account that names no merchant, its registration a day untold. */
  const NO_CARD := World(
    map[Key(1, Reg) := RegisteredAt(0, Pending), Key(1, StoreConnected) := StillWaiting(0)],
    map[1 := None], map[], RETRIED_FOR_MS, [])

  /** Two accounts of one merchant, the first not yet told of, the second told of. */
  const TWO_ACCOUNTS := World(
    map[Key(1, Reg) := RegisteredAt(0, Pending), Key(1, StoreConnected) := StillWaiting(0),
        Key(2, Reg) := RegisteredAt(1, Delivered), Key(2, StoreConnected) := StillWaiting(1)],
    map[1 := Some(7), 2 := Some(7)], map[7 := [2]], 2, [])

  lemma RowsAreSound(clock: int, at: int, state: State)
    requires at <= clock && state in {Delivered, Pending}
    ensures RowOk(Key(1, Reg), RegisteredAt(at, state), clock)
    ensures RowOk(Key(1, StoreConnected), StillWaiting(at), clock)
  {
  }

  /** A table whose rows are these two kinds alone, all of its stores' reports still waiting, is sound. */
  lemma WaitingTableIsSound(w: World)
    requires CardsInv(w)
    requires forall k | k in w.rows :: Paired(w, k.account) && RowOk(k, w.rows[k], w.clock)
    requires forall k | k in w.rows && k.event.StoreConnected? :: w.rows[k].state.Waiting?
    ensures TableInv(w)
  {
    forall a | a in w.merchantOf ensures !Left(w, a) {}
  }

  lemma CardOf(w: World, a: Account, m: Merchant, at: int)
    requires a in w.merchantOf && w.merchantOf[a] == Some(m) && w.cards == map[m := [at]]
    ensures FirstCard(w, a) == Some(at)
  {
    assert Earliest([at]) == at;
  }

  /** Switched off, a report past its card's day keeps waiting, click and all, until its thirty days end. */
  lemma SwitchedOffKeepsADeadClick()
    ensures TableInv(DAY_OLD) && InWaiting(DAY_OLD, {}, 1) && Hopeless(DAY_OLD, 1, RETRIED_FOR_MS)
    ensures FateOf(DAY_OLD, RETRIED_FOR_MS, false, {}, 1).Stay?
    ensures DAY_OLD.rows[Key(1, StoreConnected)].click == CLICK
  {
    var w := DAY_OLD;
    RowsAreSound(w.clock, 0, Delivered);
    assert Paired(w, 1);
    assert Past([0], w.clock);
    WaitingTableIsSound(w);
    CardOf(w, 1, 7, 0);
    AloneHolds(w, 1);
  }

  /**
   * Nor need it hold a place: with no card and no merchant, a report whose registration's day has passed
   * untold keeps waiting, on or off, until a turn gives the registration up before it settles.
   */
  lemma NoCardKeepsADeadClick(promote: bool)
    ensures TableInv(NO_CARD) && InWaiting(NO_CARD, {}, 1) && Hopeless(NO_CARD, 1, RETRIED_FOR_MS)
    ensures !Holds(NO_CARD, {}, 1) && FateOf(NO_CARD, RETRIED_FOR_MS, promote, {}, 1).Stay?
    ensures NO_CARD.rows[Key(1, StoreConnected)].click == CLICK
  {
    var w := NO_CARD;
    RowsAreSound(w.clock, 0, Pending);
    assert Paired(w, 1);
    WaitingTableIsSound(w);
    assert FirstCard(w, 1).None?;
    assert PastItsTime(w.rows[Key(1, Reg)], RETRIED_FOR_MS);
  }

  /** A waiting report with no other of its merchant, and its card in time, holds the place. */
  lemma AloneHolds(w: World, a: Account)
    requires InWaiting(w, {}, a) && w.merchantOf.Keys == {a} && w.merchantOf[a].Some?
    requires FirstCard(w, a).Some? && !Failed(w.rows[Key(a, Reg)].state)
    requires w.rows[Key(a, StoreConnected)].createdAt <= FirstCard(w, a).value < w.rows[Key(a, StoreConnected)].createdAt + KEPT_FOR_MS
    ensures Holds(w, {}, a)
  {
    assert !Taken(w, w.merchantOf[a].value);
  }

  /** A report lapses for good while the account that keeps the place from it may yet fail to be told of. */
  lemma LapsesWithHope()
    ensures TableInv(TWO_ACCOUNTS) && InWaiting(TWO_ACCOUNTS, {}, 2) && !Hopeless(TWO_ACCOUNTS, 2, 2)
    ensures FateOf(TWO_ACCOUNTS, 2, true, {}, 2) == Lapse(BelongsToAnotherAccount)
  {
    var w := TWO_ACCOUNTS;
    RowsAreSound(2, 0, Pending);
    RowsAreSound(2, 1, Delivered);
    assert Paired(w, 1) && Paired(w, 2);
    assert Past([2], w.clock);
    WaitingTableIsSound(w);
    CardOf(w, 1, 7, 2);
    CardOf(w, 2, 7, 2);
    UntakenWhileAllWait(w, 7);
    SoonerHolds(w, 1, 2);
  }

  lemma UntakenWhileAllWait(w: World, m: Merchant)
    requires forall k | k in w.rows && k.event.StoreConnected? :: w.rows[k].state.Waiting?
    ensures !Taken(w, m)
  {
  }

  lemma SoonerHolds(w: World, a: Account, b: Account)
    requires InWaiting(w, {}, a) && InWaiting(w, {}, b) && a != b && w.merchantOf[a] == w.merchantOf[b] && w.merchantOf[a].Some?
    requires FirstCard(w, a).Some? && !Failed(w.rows[Key(a, Reg)].state) && !Taken(w, w.merchantOf[a].value)
    requires w.rows[Key(a, StoreConnected)].createdAt <= FirstCard(w, a).value < w.rows[Key(a, StoreConnected)].createdAt + KEPT_FOR_MS
    requires Sooner(w, a, b) && !Sooner(w, b, a)
    ensures !Holds(w, {}, b)
  {
    assert Eligible(w, {}, a);
  }
}
