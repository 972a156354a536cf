/** The promises of the report loop, over every run. */
module AdReportTheorems {
  import opened Options
  import opened AdReportModel
  import opened AdReportSettling
  import opened AdReportTurns
  import opened AdReportInvariants
  import opened AdReportRuns

  // ---- Every step keeps the invariant ----

  lemma ExpireReads(w: World, input: ExpireInput)
    requires Inv(w)
    ensures TableInv(BeforeSettling(w, input)) && BeforeSettling(w, input).posts == w.posts
    ensures Grows(w, BeforeSettling(w, input)) && Advances(w, BeforeSettling(w, input))
  {
    var read, given := Meanwhile(w, input.giving), AfterGivingUp(w, input);
    MeanwhileKeeps(w, input.giving);
    MeanwhileAdvances(w, input.giving);
    GivingUpKeeps(read, w.clock);
    GivingUpAdvances(read, w.clock);
    AdvancesOn(w, read, given);
    GrowsOn(w, read, given);
    MeanwhileKeeps(given, input.between);
    MeanwhileAdvances(given, input.between);
    AdvancesOn(w, given, BeforeSettling(w, input));
    GrowsOn(w, given, BeforeSettling(w, input));
  }

  lemma GivingUpAdvances(w: World, at: int)
    ensures Grows(w, GivenUpLate(w, at)) && Advances(w, GivenUpLate(w, at))
  {
    forall a ensures FirstCard(GivenUpLate(w, at), a) == FirstCard(w, a) {}
  }

  lemma ExpireSettles(w: World, input: ExpireInput)
    requires Inv(w)
    ensures var v := Settled(Meanwhile(BeforeSettling(w, input), input.settling), BeforeSettling(w, input).clock, false, input.skips);
            Inv(v) && Grows(w, v) && Advances(w, v)
  {
    ExpireReads(w, input);
    var before := BeforeSettling(w, input);
    var read := Meanwhile(before, input.settling);
    var v := Settled(read, before.clock, false, input.skips);
    MeanwhileKeeps(before, input.settling);
    MeanwhileAdvances(before, input.settling);
    AdvancesOn(w, before, read);
    GrowsOn(w, before, read);
    SettlesOn(w, read, before.clock, input.skips);
  }

  lemma SettlesOn(w: World, read: World, at: int, skips: set<Account>)
    requires Inv(w) && TableInv(read) && Grows(w, read) && Advances(w, read) && read.posts == w.posts
    ensures Inv(Settled(read, at, false, skips)) && Grows(w, Settled(read, at, false, skips))
    ensures Advances(w, Settled(read, at, false, skips))
  {
    var v := Settled(read, at, false, skips);
    SettlingKeepsRows(read, at, false, skips);
    SettlingKeepsStores(read, at, false, skips);
    SettlingAdvances(read, at, false, skips);
    AdvancesOn(w, read, v);
    forall a ensures FirstCard(v, a) == FirstCard(read, a) {}
    PostsStay(w, v);
  }

  lemma ExpireTurnKeeps(w: World, input: ExpireInput)
    requires Inv(w)
    ensures Inv(ExpireTurn(w, input).world)
    ensures Grows(w, ExpireTurn(w, input).world) && Advances(w, ExpireTurn(w, input).world)
    ensures ExpireTurn(w, input).world.posts == w.posts
  {
    ExpireSettles(w, input);
    ExpireReads(w, input);
    MeanwhilePostsNothing(BeforeSettling(w, input), input.settling);
    if input.fails {
      MeanwhileTakes(w, input.giving);
      MeanwhileTakes(AfterGivingUp(w, input), input.between);
      MeanwhileTakes(BeforeSettling(w, input), input.settling);
      ElapsedSplits(input.giving, input.between);
      ElapsedSplits(input.giving + input.between, input.settling);
      var read := BeforeSettling(w, input);
      RolledBackKeeps(w, input.giving + input.between + input.settling,
                      Settled(Meanwhile(read, input.settling), read.clock, false, input.skips));
    }
  }

  lemma DeletingKeepsRows(w: World, v: World, a: Account)
    requires RowsInv(w) && v == Deleted(w, a)
    ensures RowsInv(v)
  {
    forall k | k in v.rows ensures RowOk(k, v.rows[k], v.clock) && Paired(v, k.account) {
      assert RowOk(k, w.rows[k], w.clock) && Paired(w, k.account);
      assert v != w ==> k.account != a by {
        if k.account == a { assert k == Key(a, Reg) || k == Key(a, StoreConnected); }
      }
    }
  }

  lemma DeletingKeepsStores(w: World, v: World, a: Account)
    requires StoresInv(w) && v == Deleted(w, a)
    ensures StoresInv(v)
  {
    forall b | b in v.merchantOf && Left(v, b) ensures Earned(v, b) && Left(w, b) {
      assert Left(w, b) && Earned(w, b);
      assert FirstCard(v, b) == FirstCard(w, b);
      assert v != w ==> b != a;
    }
  }

  lemma DeletingKeepsPosts(w: World, v: World, a: Account)
    requires PostsInv(w) && v == Deleted(w, a)
    ensures PostsInv(v)
  {
    forall i | 0 <= i < |v.posts| ensures PostOk(v, v.posts[i]) {
      assert PostOk(w, w.posts[i]);
      var b := w.posts[i].key.account;
      if w.posts[i].key.event.StoreConnected? { assert FirstCard(v, b) == FirstCard(w, b); }
    }
  }

  lemma DeletingKeeps(w: World, a: Account)
    requires Inv(w)
    ensures Inv(Deleted(w, a)) && Deleted(w, a).posts == w.posts
  {
    DeletingKeepsRows(w, Deleted(w, a), a);
    DeletingKeepsStores(w, Deleted(w, a), a);
    DeletingKeepsPosts(w, Deleted(w, a), a);
  }

  lemma ChangingKeeps(w: World, c: Change)
    requires Inv(w)
    ensures Inv(Changed(w, c)) && Grows(w, Changed(w, c)) && Advances(w, Changed(w, c))
    ensures Changed(w, c).posts == w.posts
  {
    ChangeGrows(w, c);
    ChangeKeepsRows(w, c);
    ChangeKeepsStores(w, c);
    ChangeKeepsPosts(w, c);
  }

  lemma ChangeKeepsPosts(w: World, c: Change)
    requires PostsInv(w) && LockFree(w) && Grows(w, Changed(w, c))
    requires forall k | k in w.rows :: k in Changed(w, c).rows && Changed(w, c).rows[k] == w.rows[k]
    ensures PostsInv(Changed(w, c)) && LockFree(Changed(w, c)) && Changed(w, c).posts == w.posts
  {
    PostsStay(w, Changed(w, c));
  }

  lemma StepKeeps(w: World, step: Step)
    requires Inv(w)
    ensures Inv(After(w, step))
    ensures w.posts <= After(w, step).posts && w.clock <= After(w, step).clock
    ensures forall a | a in w.merchantOf && w.merchantOf[a].Some? ::
              a in After(w, step).merchantOf && After(w, step).merchantOf[a] == w.merchantOf[a]
    ensures forall k | k in w.rows && !(k in After(w, step).rows && Advanced(w.rows[k], After(w, step).rows[k])) ::
              step.Delete? && k.account == step.account && w.merchantOf[k.account].None? && k !in After(w, step).rows
  {
    match step
    case Between(c) => ChangingKeeps(w, c);
    case Delete(a) =>
      DeletingKeeps(w, a);
      forall k | k in w.rows ensures k.account in w.merchantOf && Advanced(w.rows[k], w.rows[k]) {
        assert Paired(w, k.account);
      }
    case Report(input) => ReportTurnKeeps(w, input);
    case Expire(input) => ExpireTurnKeeps(w, input);
  }

  /** Every state of a run keeps the invariant of the state it starts from. */
  lemma {:induction false} RunKeeps(w: World, steps: seq<Step>)
    requires Inv(w)
    ensures Inv(Run(w, steps))
  {
    if steps != [] {
      RunKeeps(w, steps[..|steps| - 1]);
      StepKeeps(Run(w, steps[..|steps| - 1]), steps[|steps| - 1]);
    }
  }

  /** Every state of every run keeps the invariant. */
  lemma EveryRunKeeps(steps: seq<Step>)
    ensures Inv(Run(EMPTY, steps))
  {
    RunKeeps(EMPTY, steps);
  }

  /** From one state of a run to a later one: posts are only added, and an attached account keeps its rows. */
  ghost predicate Follows(v: World, w: World) {
    && v.posts <= w.posts && v.clock <= w.clock
    && (forall a | a in v.merchantOf && v.merchantOf[a].Some? ::
          a in w.merchantOf && w.merchantOf[a] == v.merchantOf[a])
    && (forall k | k in v.rows && k.account in v.merchantOf && v.merchantOf[k.account].Some? :: k in w.rows && Advanced(v.rows[k], w.rows[k]))
  }

  lemma StepFollows(u: World, v: World, step: Step)
    requires Inv(u) && Inv(v) && Follows(u, v)
    ensures Follows(u, After(v, step))
  {
    StepKeeps(v, step);
    var w := After(v, step);
    forall k | k in u.rows && k.account in u.merchantOf && u.merchantOf[k.account].Some? ensures k in w.rows && Advanced(u.rows[k], w.rows[k]) {
      assert Paired(u, k.account);
      assert Advanced(u.rows[k], v.rows[k]);
      assert k in w.rows && Advanced(v.rows[k], w.rows[k]);
    }
  }

  lemma {:induction false} RunFollows(steps: seq<Step>, i: nat)
    requires i <= |steps|
    ensures Follows(Run(EMPTY, steps[..i]), Run(EMPTY, steps))
    decreases |steps|
  {
    EveryRunKeeps(steps[..i]);
    if i == |steps| {
      assert steps[..i] == steps;
      forall k | k in Run(EMPTY, steps).rows ensures Advanced(Run(EMPTY, steps).rows[k], Run(EMPTY, steps).rows[k]) {}
    } else {
      var shorter := steps[..|steps| - 1];
      assert shorter[..i] == steps[..i];
      RunFollows(shorter, i);
      EveryRunKeeps(shorter);
      StepFollows(Run(EMPTY, steps[..i]), Run(EMPTY, shorter), steps[|steps| - 1]);
    }
  }

  // ---- One store report a merchant ----

  /**
   * Of each merchant, over a whole run, one account at most has a store report that was ever
   * anything but waiting or lapsed.
   */
  lemma OneStoreReportAMerchant(steps: seq<Step>, i: nat, j: nat, a: Account, b: Account)
    requires i <= j <= |steps|
    requires a in Run(EMPTY, steps[..i]).merchantOf && Left(Run(EMPTY, steps[..i]), a)
    requires b in Run(EMPTY, steps[..j]).merchantOf && Left(Run(EMPTY, steps[..j]), b)
    requires Run(EMPTY, steps[..i]).merchantOf[a] == Run(EMPTY, steps[..j]).merchantOf[b]
    ensures a == b
  {
    var v, w := Run(EMPTY, steps[..i]), Run(EMPTY, steps[..j]);
    EveryRunKeeps(steps[..i]);
    EveryRunKeeps(steps[..j]);
    assert steps[..j][..i] == steps[..i];
    RunFollows(steps[..j], i);
    assert Earned(v, a);
    assert Left(w, a);
  }

  /** An account that names no merchant has its store report still waiting, or lapsed. */
  lemma UnattachedStoresAreUnsent(steps: seq<Step>, a: Account)
    requires a in Run(EMPTY, steps).merchantOf && Run(EMPTY, steps).merchantOf[a].None?
    requires Key(a, StoreConnected) in Run(EMPTY, steps).rows
    ensures Unsent(Run(EMPTY, steps).rows[Key(a, StoreConnected)].state)
  {
    EveryRunKeeps(steps);
    var w := Run(EMPTY, steps);
    assert Left(w, a) == !Unsent(w.rows[Key(a, StoreConnected)].state);
  }

  // ---- Spacing ----

  /** Any two posts of a run, of whichever process and however their turns ended, begin 1.1 seconds apart. */
  lemma PostsAreSpaced(steps: seq<Step>, i: nat, j: nat)
    requires i < j < |Run(EMPTY, steps).posts|
    ensures Run(EMPTY, steps).posts[j].startedAt - Run(EMPTY, steps).posts[i].startedAt >= SPACED_MS
    ensures Run(EMPTY, steps).clock - Run(EMPTY, steps).posts[i].startedAt >= SPACED_MS
  {
    EveryRunKeeps(steps);
    var posts := Run(EMPTY, steps).posts;
    assert i < |posts| - 1 ==> posts[i].startedAt + SPACED_MS <= posts[|posts| - 1].startedAt;
  }

  // ---- Tries and their times ----

  /** A pending row's next try lies inside its time, no sooner than its waits, so seven tries are the most behind it. */
  lemma PendingIsInTime(steps: seq<Step>, k: Key)
    requires k in Run(EMPTY, steps).rows
    ensures var row := Run(EMPTY, steps).rows[k];
            && row.attempts <= 8
            && (row.state.Pending? ==>
                  && row.eventAt.Some? && row.nextAttemptAt.Some?
                  && row.attempts <= 7
                  && (row.attempts > 0 ==> row.eventAt.value + DelaySum(row.attempts) <= row.nextAttemptAt.value)
                  && row.nextAttemptAt.value < row.eventAt.value + RETRIED_FOR_MS
                  && row.nextAttemptAt.value < row.createdAt + KEPT_FOR_MS)
  {
    EveryRunKeeps(steps);
    var row := Run(EMPTY, steps).rows[k];
    assert RowOk(k, row, Run(EMPTY, steps).clock);
    EightWaitsOutlastADay(row.attempts);
  }

  /** Every post left after its time was looked at and found not over. */
  lemma PostsAreInTime(steps: seq<Step>, i: nat)
    requires i < |Run(EMPTY, steps).posts|
    ensures var post := Run(EMPTY, steps).posts[i];
            && post.eventAt <= post.checkedAt <= post.startedAt
            && post.checkedAt < post.eventAt + RETRIED_FOR_MS && post.checkedAt < post.createdAt + KEPT_FOR_MS
  {
    EveryRunKeeps(steps);
    assert PostOk(Run(EMPTY, steps), Run(EMPTY, steps).posts[i]);
  }

  // ---- Clicks ----

  /** A row holds its click exactly while it is open, and a final row of an attached account never changes again. */
  lemma ClicksAndFinality(steps: seq<Step>, i: nat, k: Key)
    requires i <= |steps| && k in Run(EMPTY, steps[..i]).rows
    ensures var v := Run(EMPTY, steps[..i]);
            && v.rows[k].click.Some? == Open(v.rows[k].state)
            && k.account in v.merchantOf
            && (!Open(v.rows[k].state) && v.merchantOf[k.account].Some? ==>
                  k in Run(EMPTY, steps).rows && Run(EMPTY, steps).rows[k] == v.rows[k])
  {
    EveryRunKeeps(steps[..i]);
    RunFollows(steps, i);
    assert RowOk(k, Run(EMPTY, steps[..i]).rows[k], Run(EMPTY, steps[..i]).clock);
    assert Paired(Run(EMPTY, steps[..i]), k.account);
  }
}
