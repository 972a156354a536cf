/** Whose click goes when reporting is switched off, and what a store's post rests on. */
module AdReportErasure {
  import opened Options
  import opened AdReportModel
  import opened AdReportSettling
  import opened AdReportTurns
  import opened AdReportInvariants
  import opened AdReportRuns
  import opened AdReportTheorems

  /** Why a turn of the switched-off loop closes a row. */
  ghost predicate TimeIsUp(w: World, input: ExpireInput, k: Key)
    requires k in w.rows
  {
    || PastItsTime(w.rows[k], w.clock)
    || (&& k.event.StoreConnected? && w.rows[k].state.Waiting? && k.account !in input.skips
        && (|| w.rows[k].createdAt + KEPT_FOR_MS <= BeforeSettling(w, input).clock
            || (Key(k.account, Reg) in w.rows
                && (Failed(w.rows[Key(k.account, Reg)].state) || PastItsTime(w.rows[Key(k.account, Reg)], w.clock)))))
  }

  lemma {:induction false} NewcomersAreOpen(w: World, changes: seq<Change>, k: Key)
    requires k !in w.rows && k in Meanwhile(w, changes).rows
    ensures Meanwhile(w, changes).rows[k].state == (if k.event.Reg? then Pending else Waiting)
    decreases |changes|
  {
    if changes != [] {
      var v := Changed(w, changes[0]);
      if k in v.rows {
        RowsStay(v, changes[1..], k);
        assert k == Key(k.account, k.event);
      } else {
        NewcomersAreOpen(v, changes[1..], k);
      }
    }
  }

  lemma {:induction false} RowsStay(w: World, changes: seq<Change>, k: Key)
    requires k in w.rows
    ensures k in Meanwhile(w, changes).rows && Meanwhile(w, changes).rows[k] == w.rows[k]
    decreases |changes|
  {
    if changes != [] { RowsStay(Changed(w, changes[0]), changes[1..], k); }
  }

  /** What the second statement of the turn reads of a row the turn found. */
  lemma ReadByTheSecond(w: World, input: ExpireInput, k: Key)
    requires k in w.rows
    ensures var read := Meanwhile(BeforeSettling(w, input), input.settling);
            && k in read.rows
            && read.rows[k] == (if PastItsTime(w.rows[k], w.clock) then GiveUp(w.rows[k], w.clock) else w.rows[k])
  {
    RowsStay(w, input.giving, k);
    RowsStay(AfterGivingUp(w, input), input.between, k);
    RowsStay(BeforeSettling(w, input), input.settling, k);
  }

  lemma AccountsStay(w: World, input: ExpireInput, a: Account)
    requires Inv(w) && a in w.merchantOf
    ensures a in Meanwhile(BeforeSettling(w, input), input.settling).merchantOf
  {
    ExpireReads(w, input);
    MeanwhileKeeps(BeforeSettling(w, input), input.settling);
  }

  /** A waiting report past its 30 days, or whose registration failed, does not stay. */
  lemma OverdueIsClosed(w: World, at: int, skips: set<Account>, a: Account)
    requires InWaiting(w, skips, a)
    requires w.rows[Key(a, StoreConnected)].createdAt + KEPT_FOR_MS <= at || Failed(w.rows[Key(a, Reg)].state)
    ensures var row := Settled(w, at, false, skips).rows[Key(a, StoreConnected)];
            row.click.None? && !Open(row.state)
  {
    assert !FateOf(w, at, false, skips, a).Stay? && !FateOf(w, at, false, skips, a).Due?;
    assert Key(a, StoreConnected) in SettleWrites(w, at, false, skips);
  }

  /**
   * After a switched-off turn no row whose time is up holds a click, a store report whose registration
   * was given up in that same turn included; and of the pending rows no other is closed.
   */
  lemma SwitchedOffErases(w: World, input: ExpireInput, k: Key)
    requires Inv(w) && !input.fails && k in w.rows
    ensures k in ExpireTurn(w, input).world.rows
    ensures TimeIsUp(w, input, k) ==>
              ExpireTurn(w, input).world.rows[k].click.None? && !Open(ExpireTurn(w, input).world.rows[k].state)
    ensures w.rows[k].state.Pending? && !TimeIsUp(w, input, k) ==> ExpireTurn(w, input).world.rows[k] == w.rows[k]
  {
    var a, before := k.account, BeforeSettling(w, input);
    var read := Meanwhile(before, input.settling);
    ReadByTheSecond(w, input, k);
    assert Paired(w, a);
    if k.event.StoreConnected? && w.rows[k].state.Waiting? && TimeIsUp(w, input, k) {
      assert k == Key(a, StoreConnected);
      ReadByTheSecond(w, input, Key(a, Reg));
      AccountsStay(w, input, a);
      OverdueIsClosed(read, before.clock, input.skips, a);
    }
  }

  // ---- A reporting turn that finds nothing due ----

  /** A row whose time is over while it still holds its click. */
  predicate Overdue(row: Row, at: int) {
    row.click.Some? && (PastItsTime(row, at) || (row.state.Waiting? && row.createdAt + KEPT_FOR_MS <= at))
  }

  lemma {:induction false} NewcomersAreNew(w: World, changes: seq<Change>, k: Key)
    requires k !in w.rows && k in Meanwhile(w, changes).rows
    ensures Meanwhile(w, changes).rows[k].createdAt >= w.clock
    decreases |changes|
  {
    if changes != [] {
      var v := Changed(w, changes[0]);
      if k in v.rows { RowsStay(v, changes[1..], k); } else { NewcomersAreNew(v, changes[1..], k); }
    }
  }

  /** A pending row past its time was due long before. */
  lemma PastItsTimeIsDue(w: World, at: int, k: Key)
    requires TableInv(w) && k in w.rows && PastItsTime(w.rows[k], at)
    ensures IsDue(w, at, {}, k)
  {
    assert RowOk(k, w.rows[k], w.clock);
  }

  /** With reporting on, a waiting report past its thirty days does not stay waiting either. */
  lemma OldIsSettled(w: World, at: int, a: Account)
    requires TableInv(w) && Key(a, StoreConnected) in w.rows
    ensures var row := Settled(w, at, true, {}).rows[Key(a, StoreConnected)];
            row.state.Waiting? ==> at < row.createdAt + KEPT_FOR_MS
  {
    assert Paired(w, a);
  }

  lemma WaitingIsYoung(w: World, input: ReportInput, k: Key)
    requires Inv(w) && input.settleSkips == {} && k in AtLock(w, input).rows && AtLock(w, input).rows[k].state.Waiting?
    requires k.event.StoreConnected?
    ensures w.clock < AtLock(w, input).rows[k].createdAt + KEPT_FOR_MS
  {
    var read := Meanwhile(w, input.settling);
    var settled := Settled(read, w.clock, true, {});
    MeanwhileKeeps(w, input.settling);
    MeanwhileTakes(w, input.settling);
    MeanwhileSplits(settled, input.selecting, input.locking);
    assert AtLock(w, input) == Meanwhile(settled, input.selecting + input.locking);
    if k in settled.rows {
      RowsStay(settled, input.selecting + input.locking, k);
      OldIsSettled(read, w.clock, k.account);
      assert k == Key(k.account, StoreConnected);
    } else {
      NewcomersAreNew(settled, input.selecting + input.locking, k);
    }
  }

  /**
   * A reporting turn that finds nothing due, no row locked elsewhere, leaves no row with a click whose time
   * was over when the turn began: as a switched-off turn does, though by posting or giving up one row a turn.
   */
  lemma IdleTurnsLeaveNoneOverdue(w: World, input: ReportInput, k: Key)
    requires Inv(w) && input.settleSkips == {} && input.dueSkips == {} && ReportTurn(w, input).took.Idle?
    requires k in ReportTurn(w, input).world.rows
    ensures !Overdue(ReportTurn(w, input).world.rows[k], w.clock)
  {
    var v := AtLock(w, input);
    UpToStart(w, input);
    assert RowOk(k, v.rows[k], v.clock);
    LockIsNoSooner(w, input);
    if PastItsTime(v.rows[k], w.clock) { PastItsTimeIsDue(v, SelectAt(w, input), k); }
    if v.rows[k].state.Waiting? { WaitingIsYoung(w, input, k); }
  }

  lemma LockIsNoSooner(w: World, input: ReportInput)
    ensures w.clock <= SelectAt(w, input)
  {
    MeanwhileTakes(w, input.settling);
    MeanwhileTakes(Settled(Meanwhile(w, input.settling), w.clock, true, input.settleSkips), input.selecting);
  }

  // ---- A store's post follows its registration's delivery ----

  /** The turn that posts a store report began with the account's registration recorded as delivered. */
  lemma StorePostRestsOnDelivery(w: World, input: ReportInput)
    requires Inv(w) && Posts(w, input) && PostOf(w, input).key.event.StoreConnected?
    ensures var registration := Key(PostOf(w, input).key.account, Reg);
            registration in w.rows && w.rows[registration].state.Delivered?
  {
    var k := Key(PostOf(w, input).key.account, Reg);
    PostIsOk(w, input);
    StartLiesOver(w, input);
    assert k !in TurnWrites(w, input);
    var changes := BeforeCheck(input) + input.starting;
    if k in w.rows { RowsStay(w, changes, k); } else { NewcomersAreOpen(w, changes, k); }
  }

  /** Only a reporting turn posts, and a store's post rests on the state its turn began in. */
  lemma NewPostRests(w: World, step: Step)
    requires Inv(w)
    ensures |After(w, step).posts| <= |w.posts| + 1
    ensures |After(w, step).posts| == |w.posts| + 1 && After(w, step).posts[|w.posts|].key.event.StoreConnected? ==>
              var registration := Key(After(w, step).posts[|w.posts|].key.account, Reg);
              registration in w.rows && w.rows[registration].state.Delivered?
  {
    match step
    case Report(input) =>
      ReportTurnKeeps(w, input);
      if Posts(w, input) && PostOf(w, input).key.event.StoreConnected? { StorePostRestsOnDelivery(w, input); }
    case Between(c) =>
    case Delete(a) =>
    case Expire(input) => ExpireTurnKeeps(w, input);
  }

  /** The state the i-th post of a run was sent from had the account's registration delivered. */
  ghost predicate SentAfterDelivery(steps: seq<Step>, j: nat, i: nat, a: Account)
    requires j <= |steps|
  {
    && |Run(EMPTY, steps[..j]).posts| == i
    && Key(a, Reg) in Run(EMPTY, steps[..j]).rows
    && Run(EMPTY, steps[..j]).rows[Key(a, Reg)].state.Delivered?
  }

  /**
   * Every store post of a run was sent from a state that recorded the account's registration as
   * delivered; it is dated by the first card of the merchant the account names, which came at or after
   * the registration and within its 30 days.
   */
  lemma StorePostsFollowDeliveries(steps: seq<Step>, i: nat)
    requires i < |Run(EMPTY, steps).posts| && Run(EMPTY, steps).posts[i].key.event.StoreConnected?
    ensures var post := Run(EMPTY, steps).posts[i];
            && FirstCard(Run(EMPTY, steps), post.key.account) == Some(post.eventAt)
            && post.createdAt <= post.eventAt < post.createdAt + KEPT_FOR_MS
            && exists j: nat | j < |steps| :: SentAfterDelivery(steps, j, i, post.key.account)
  {
    EveryRunKeeps(steps);
    assert PostOk(Run(EMPTY, steps), Run(EMPTY, steps).posts[i]);
    var j := SentFrom(steps, i);
  }

  lemma {:induction false} SentFrom(steps: seq<Step>, i: nat) returns (j: nat)
    requires i < |Run(EMPTY, steps).posts| && Run(EMPTY, steps).posts[i].key.event.StoreConnected?
    ensures j < |steps| && SentAfterDelivery(steps, j, i, Run(EMPTY, steps).posts[i].key.account)
  {
    var last := |steps| - 1;
    var shorter := steps[..last];
    EveryRunKeeps(shorter);
    StepKeeps(Run(EMPTY, shorter), steps[last]);
    NewPostRests(Run(EMPTY, shorter), steps[last]);
    if i < |Run(EMPTY, shorter).posts| {
      j := SentFrom(shorter, i);
      assert shorter[..j] == steps[..j];
    } else {
      j := last;
    }
  }
}
