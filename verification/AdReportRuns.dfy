/** What holds in every state of every run, and across its turns. */
module AdReportRuns {
  import opened Options
  import opened AdReportModel
  import opened AdReportSettling
  import opened AdReportTurns
  import opened AdReportInvariants

  // ---- How a row may move ----

  /** Final rows stay as they are; no row goes back, changes its dates or takes another click. */
  ghost predicate Advanced(row: Row, next: Row) {
    && (!Open(row.state) ==> next == row)
    && (!Unsent(row.state) ==> !Unsent(next.state))
    && next.createdAt == row.createdAt
    && (row.eventAt.Some? ==> next.eventAt == row.eventAt)
    && (next.click.Some? ==> next.click == row.click)
    && row.attempts <= next.attempts
  }

  ghost predicate Advances(v: World, w: World) {
    forall k | k in v.rows :: k in w.rows && Advanced(v.rows[k], w.rows[k])
  }

  lemma AdvancesOn(u: World, v: World, w: World)
    requires Advances(u, v) && Advances(v, w)
    ensures Advances(u, w)
  {
    forall k | k in u.rows ensures k in w.rows && Advanced(u.rows[k], w.rows[k]) {
      assert Advanced(u.rows[k], v.rows[k]);
      assert Advanced(v.rows[k], w.rows[k]);
    }
  }

  lemma MeanwhileAdvances(w: World, changes: seq<Change>)
    requires TableInv(w)
    ensures Advances(w, Meanwhile(w, changes))
  {
    MeanwhileKeeps(w, changes);
  }

  lemma SettlingAdvances(w: World, at: int, promote: bool, skips: set<Account>)
    requires RowsInv(w)
    ensures Advances(w, Settled(w, at, promote, skips))
  {
    forall k | k in w.rows ensures Advanced(w.rows[k], Settled(w, at, promote, skips).rows[k]) {
      assert RowOk(k, w.rows[k], w.clock);
    }
  }

  lemma SelectingAdvances(w: World, input: ReportInput)
    requires TableInv(w)
    ensures Advances(w, AtLock(w, input))
  {
    var read := Meanwhile(w, input.settling);
    var settled := Settled(read, w.clock, true, input.settleSkips);
    MeanwhileKeeps(w, input.settling);
    MeanwhileAdvances(w, input.settling);
    SettlingKeepsRows(read, w.clock, true, input.settleSkips);
    SettlingKeepsStores(read, w.clock, true, input.settleSkips);
    SettlingAdvances(read, w.clock, true, input.settleSkips);
    AdvancesOn(w, read, settled);
    MeanwhileAdvances(settled, input.selecting);
    AdvancesOn(w, settled, AtSelect(w, input));
    SettlingStageKeeps(w, input);
    MeanwhileAdvances(AtSelect(w, input), input.locking);
    AdvancesOn(w, AtSelect(w, input), AtLock(w, input));
  }

  /** The table at every stage of a turn up to the beginning of its post. */
  lemma UpToStart(w: World, input: ReportInput)
    requires TableInv(w)
    ensures TableInv(AtLock(w, input)) && Grows(w, AtLock(w, input)) && Advances(w, AtLock(w, input))
    ensures TableInv(AtCheck(w, input)) && Grows(w, AtCheck(w, input)) && Advances(w, AtCheck(w, input))
    ensures TableInv(AtStart(w, input)) && Grows(w, AtStart(w, input)) && Advances(w, AtStart(w, input))
    ensures AtLock(w, input).posts == AtCheck(w, input).posts == AtStart(w, input).posts == w.posts
    ensures RowsKept(AtLock(w, input), AtCheck(w, input)) && RowsKept(AtLock(w, input), AtStart(w, input))
    ensures SelectAt(w, input) <= AtCheck(w, input).clock <= AtStart(w, input).clock
  {
    SettlingStageKeeps(w, input);
    LockingStageKeeps(w, input);
    CheckingStageKeeps(w, input);
    StartingStageKeeps(w, input);
    SelectingAdvances(w, input);
    GrowsOn(w, AtSelect(w, input), AtLock(w, input));
    GrowsOn(w, AtLock(w, input), AtCheck(w, input));
    GrowsOn(w, AtCheck(w, input), AtStart(w, input));
    assert Advances(AtLock(w, input), AtCheck(w, input));
    AdvancesOn(w, AtLock(w, input), AtCheck(w, input));
    assert Advances(AtCheck(w, input), AtStart(w, input));
    AdvancesOn(w, AtCheck(w, input), AtStart(w, input));
  }

  lemma LaterKeeps(w: World, t: int)
    requires TableInv(w) && w.clock <= t
    ensures TableInv(w.(clock := t)) && Grows(w, w.(clock := t)) && Advances(w, w.(clock := t))
  {
    var v := w.(clock := t);
    forall k | k in v.rows ensures RowOk(k, v.rows[k], t) && Paired(v, k.account) {
      assert RowOk(k, w.rows[k], w.clock) && Paired(w, k.account);
    }
    forall m | m in v.cards ensures Past(v.cards[m], t) {
      assert Past(w.cards[m], w.clock);
    }
    forall a | a in v.merchantOf && Left(v, a) ensures Earned(v, a) {
      assert Left(w, a) && Earned(w, a);
    }
  }

  /** Posts are no part of the table. */
  lemma PostsAside(w: World, posts: seq<Post>)
    requires TableInv(w)
    ensures TableInv(w.(posts := posts))
  {
    var v := w.(posts := posts);
    forall k | k in v.rows ensures RowOk(k, v.rows[k], v.clock) && Paired(v, k.account) {
      assert RowOk(k, w.rows[k], w.clock) && Paired(w, k.account);
    }
    forall a | a in v.merchantOf && Left(v, a) ensures Earned(v, a) {
      assert Left(w, a) && Earned(w, a);
    }
  }

  lemma StartStands(w: World, input: ReportInput)
    requires Inv(w)
    ensures TableInv(AtStart(w, input)) && PostsInv(AtStart(w, input)) && AtStart(w, input).posts == w.posts
    ensures Grows(w, AtStart(w, input)) && Advances(w, AtStart(w, input))
  {
    UpToStart(w, input);
    PostsStay(w, AtStart(w, input));
  }

  // ---- The turn that posts ----

  lemma PostIsOk(w: World, input: ReportInput)
    requires TableInv(w) && Posts(w, input)
    ensures PostOk(AtStart(w, input), PostOf(w, input))
    ensures FoundRow(w, input).state.Pending? && FoundRow(w, input).nextAttemptAt.value <= AtStart(w, input).clock
    ensures Found(w, input) in AtStart(w, input).rows && AtStart(w, input).rows[Found(w, input)] == FoundRow(w, input)
  {
    UpToStart(w, input);
    var key, lock, start := Found(w, input), AtLock(w, input), AtStart(w, input);
    assert IsDue(lock, SelectAt(w, input), input.dueSkips, key);
    if key.event.StoreConnected? {
      assert key == Key(key.account, StoreConnected);
      assert Paired(start, key.account);
      assert Left(start, key.account) && Earned(start, key.account);
    }
  }

  /** The table and the trace as the post begins. */
  ghost function Posted(w: World, input: ReportInput): World
    requires Posts(w, input)
  {
    AtStart(w, input).(posts := AtStart(w, input).posts + [PostOf(w, input)])
  }

  lemma OneMorePost(w: World, post: Post)
    requires TableInv(w) && PostsInv(w) && PostOk(w, post)
    requires w.posts != [] ==> w.posts[|w.posts| - 1].startedAt + SPACED_MS <= post.startedAt
    ensures TableInv(w.(posts := w.posts + [post])) && PostsInv(w.(posts := w.posts + [post]))
  {
    var v := w.(posts := w.posts + [post]);
    PostsAside(w, v.posts);
    forall i | 0 <= i < |v.posts| ensures PostOk(v, v.posts[i]) {
      if i < |w.posts| { assert PostOk(w, w.posts[i]); } else { assert v.posts[i] == post; }
    }
  }

  lemma PostedKeeps(w: World, input: ReportInput)
    requires Inv(w) && Posts(w, input)
    ensures TableInv(Posted(w, input)) && PostsInv(Posted(w, input))
    ensures Grows(w, Posted(w, input)) && Advances(w, Posted(w, input))
    ensures Posted(w, input).posts == w.posts + [PostOf(w, input)]
  {
    StartStands(w, input);
    PostIsOk(w, input);
    OneMorePost(AtStart(w, input), PostOf(w, input));
  }

  lemma PostingKeeps(w: World, input: ReportInput)
    requires Posts(w, input)
    requires TableInv(Posted(w, input)) && PostsInv(Posted(w, input))
    requires Grows(w, Posted(w, input)) && Advances(w, Posted(w, input))
    ensures TableInv(AtAnswer(w, input)) && PostsInv(AtAnswer(w, input))
    ensures Grows(w, AtAnswer(w, input)) && Advances(w, AtAnswer(w, input))
    ensures AtAnswer(w, input).posts == Posted(w, input).posts
    ensures RowsKept(AtStart(w, input), AtAnswer(w, input)) && AtStart(w, input).clock <= AtAnswer(w, input).clock
  {
    var posted := Posted(w, input);
    MeanwhileKeeps(posted, input.posting);
    MeanwhileAdvances(posted, input.posting);
    AdvancesOn(w, posted, AtAnswer(w, input));
    GrowsOn(w, posted, AtAnswer(w, input));
    PostsStay(posted, AtAnswer(w, input));
  }

  /** The turn's end: the lock is free again only once the spacing has passed. */
  lemma PausedKeeps(w: World, started: int, meanwhile: seq<Change>)
    requires TableInv(w) && PostsInv(w)
    requires w.posts != [] && w.posts[|w.posts| - 1].startedAt == started
    ensures Inv(Paused(w, started, meanwhile))
    ensures Grows(w, Paused(w, started, meanwhile)) && Advances(w, Paused(w, started, meanwhile))
    ensures Paused(w, started, meanwhile).posts == w.posts
  {
    var after, end := Meanwhile(w, meanwhile), Paused(w, started, meanwhile);
    MeanwhileKeeps(w, meanwhile);
    MeanwhileAdvances(w, meanwhile);
    LaterKeeps(after, end.clock);
    assert after.(clock := end.clock) == end;
    GrowsOn(w, after, end);
    AdvancesOn(w, after, end);
    PostsStay(w, end);
  }

  lemma RecordedKeeps(w: World, input: ReportInput)
    requires Inv(w) && Posts(w, input)
    ensures Inv(AtEnd(w, input)) && Grows(w, AtEnd(w, input)) && Advances(w, AtEnd(w, input))
    ensures AtEnd(w, input).posts == w.posts + [PostOf(w, input)]
  {
    PostedKeeps(w, input);
    PostingKeeps(w, input);
    PostIsOk(w, input);
    var answered, key := AtAnswer(w, input), Found(w, input);
    var row := AfterAnswer(FoundRow(w, input), input.answer, answered.clock);
    RecordedRow(answered, key, FoundRow(w, input), input.answer);
    var recorded := WithRow(answered, key, row);
    AdvancesOn(w, answered, recorded);
    GrowsOn(w, answered, recorded);
    PausedKeeps(recorded, AtStart(w, input).clock, input.pausing);
    AdvancesOn(w, recorded, AtEnd(w, input));
    GrowsOn(w, recorded, AtEnd(w, input));
  }

  lemma RecordedRow(w: World, k: Key, row: Row, answer: Answer)
    requires TableInv(w) && PostsInv(w)
    requires k in w.rows && w.rows[k] == row && row.state.Pending?
    requires row.nextAttemptAt.Some? && row.nextAttemptAt.value <= w.clock && row.eventAt.Some?
    ensures TableInv(WithRow(w, k, AfterAnswer(row, answer, w.clock)))
    ensures PostsInv(WithRow(w, k, AfterAnswer(row, answer, w.clock)))
    ensures Grows(w, WithRow(w, k, AfterAnswer(row, answer, w.clock)))
    ensures Advances(w, WithRow(w, k, AfterAnswer(row, answer, w.clock)))
  {
    var v := WithRow(w, k, AfterAnswer(row, answer, w.clock));
    assert RowOk(k, row, w.clock);
    AnswerMovesOn(w, k, row, answer);
    RecordingKeeps(w, k, AfterAnswer(row, answer, w.clock));
    assert Grows(w, v) by { forall a | a in w.merchantOf ensures FirstCard(v, a) == FirstCard(w, a) {} }
    PostsStay(w, v);
  }

  // ---- A turn that gives up, finds nothing or is rolled back ----

  lemma CheckStands(w: World, input: ReportInput)
    requires Inv(w)
    ensures TableInv(AtCheck(w, input)) && PostsInv(AtCheck(w, input)) && AtCheck(w, input).posts == w.posts
    ensures Grows(w, AtCheck(w, input)) && Advances(w, AtCheck(w, input))
    ensures RowsKept(AtLock(w, input), AtCheck(w, input))
  {
    UpToStart(w, input);
    PostsStay(w, AtCheck(w, input));
  }

  lemma GivenUpRow(w: World, k: Key)
    requires TableInv(w) && PostsInv(w) && LockFree(w)
    requires k in w.rows && w.rows[k].state.Pending?
    ensures Inv(WithRow(w, k, GiveUp(w.rows[k], w.clock)))
    ensures Grows(w, WithRow(w, k, GiveUp(w.rows[k], w.clock)))
    ensures Advances(w, WithRow(w, k, GiveUp(w.rows[k], w.clock)))
  {
    var row, v := w.rows[k], WithRow(w, k, GiveUp(w.rows[k], w.clock));
    assert RowOk(k, row, w.clock);
    RecordingKeeps(w, k, GiveUp(row, w.clock));
    assert Grows(w, v) by { forall a | a in w.merchantOf ensures FirstCard(v, a) == FirstCard(w, a) {} }
    PostsStay(w, v);
  }

  lemma LateKeeps(w: World, input: ReportInput)
    requires Inv(w) && Finds(w, input)
    ensures var late := WithRow(AtCheck(w, input), Found(w, input), GiveUp(FoundRow(w, input), AtCheck(w, input).clock));
            Inv(late) && Grows(w, late) && Advances(w, late) && late.posts == w.posts
  {
    CheckStands(w, input);
    var check, key := AtCheck(w, input), Found(w, input);
    assert IsDue(AtLock(w, input), SelectAt(w, input), input.dueSkips, key);
    GivenUpRow(check, key);
    var late := WithRow(check, key, GiveUp(check.rows[key], check.clock));
    GrowsOn(w, check, late);
    AdvancesOn(w, check, late);
  }

  lemma IdleKeeps(w: World, input: ReportInput)
    requires Inv(w)
    ensures Inv(AtLock(w, input))
  {
    UpToStart(w, input);
    PostsStay(w, AtLock(w, input));
  }

  lemma RolledBackKeeps(w: World, changes: seq<Change>, reached: World)
    requires Inv(w) && reached.posts == w.posts && w.clock + Elapsed(changes) <= reached.clock
    ensures Inv(RolledBack(w, changes, reached)) && Grows(w, RolledBack(w, changes, reached))
    ensures Advances(w, RolledBack(w, changes, reached))
  {
    var v, u := RolledBack(w, changes, reached), Meanwhile(w, changes);
    MeanwhileKeeps(w, changes);
    MeanwhileTakes(w, changes);
    LaterKeeps(u, reached.clock);
    assert u.(clock := reached.clock) == v;
    GrowsOn(w, u, v);
    PostsStay(w, v);
    MeanwhileAdvances(w, changes);
    AdvancesOn(w, u, v);
  }

  // ---- A failed turn keeps its post and nothing else ----

  /** The rows the turn's settling wrote. */
  function TurnWrites(w: World, input: ReportInput): map<Key, Row> {
    SettleWrites(Meanwhile(w, input.settling), w.clock, true, input.settleSkips)
  }

  /** A later stage is what others left, under the rows the turn settled. */
  lemma StageLiesOver(w: World, input: ReportInput, rest: seq<Change>)
    ensures TurnWrites(w, input).Keys <= Meanwhile(w, input.settling + rest).rows.Keys
    ensures Meanwhile(Settled(Meanwhile(w, input.settling), w.clock, true, input.settleSkips), rest)
         == Meanwhile(w, input.settling + rest).(rows := Meanwhile(w, input.settling + rest).rows + TurnWrites(w, input),
                                                 posts := w.posts)
  {
    var read := Meanwhile(w, input.settling);
    MeanwhilePostsNothing(w, input.settling);
    WritesLieOver(read, TurnWrites(w, input), w.posts, rest);
    MeanwhileSplits(w, input.settling, rest);
  }

  lemma {:induction false} MeanwhilePostsNothing(w: World, changes: seq<Change>)
    ensures Meanwhile(w, changes).posts == w.posts
    decreases |changes|
  {
    if changes != [] { MeanwhilePostsNothing(Changed(w, changes[0]), changes[1..]); }
  }

  lemma FourStages(w: World, a: seq<Change>, b: seq<Change>, c: seq<Change>, d: seq<Change>)
    ensures Meanwhile(Meanwhile(Meanwhile(Meanwhile(w, a), b), c), d) == Meanwhile(w, a + (b + (c + d)))
  {
    MeanwhileSplits(w, a, b + (c + d));
    MeanwhileSplits(Meanwhile(w, a), b, c + d);
    MeanwhileSplits(Meanwhile(Meanwhile(w, a), b), c, d);
  }

  function UntilStart(input: ReportInput): seq<Change> {
    input.selecting + (input.locking + (input.checking + input.starting))
  }

  lemma StartInStages(w: World, input: ReportInput)
    ensures AtStart(w, input) == Meanwhile(Settled(Meanwhile(w, input.settling), w.clock, true, input.settleSkips), UntilStart(input))
  {
    FourStages(Settled(Meanwhile(w, input.settling), w.clock, true, input.settleSkips),
               input.selecting, input.locking, input.checking, input.starting);
  }

  lemma StartLiesOver(w: World, input: ReportInput)
    ensures var others := Meanwhile(w, BeforeCheck(input) + input.starting);
            && AtStart(w, input) == others.(rows := others.rows + TurnWrites(w, input), posts := w.posts)
            && TurnWrites(w, input).Keys <= others.rows.Keys
  {
    StartInStages(w, input);
    StageLiesOver(w, input, UntilStart(input));
    Regrouped(input.settling, input.selecting, input.locking, input.checking, input.starting);
  }

  lemma Regrouped(a: seq<Change>, b: seq<Change>, c: seq<Change>, d: seq<Change>, e: seq<Change>)
    ensures a + (b + (c + (d + e))) == a + b + c + d + e
  {
  }

  lemma EndIsLate(w: World, input: ReportInput)
    requires Posts(w, input)
    ensures w.clock + Elapsed(Everything(input)) <= AtEnd(w, input).clock
    ensures w.clock + Elapsed(BeforeCheck(input)) <= AtCheck(w, input).clock
  {
    StartLiesOver(w, input);
    MeanwhileTakes(w, BeforeCheck(input) + input.starting);
    MeanwhileTakes(Posted(w, input), input.posting);
    var answered := AtAnswer(w, input);
    MeanwhileTakes(WithRow(answered, Found(w, input), AfterAnswer(FoundRow(w, input), input.answer, answered.clock)), input.pausing);
    ElapsedSplits(BeforeCheck(input) + input.starting + input.posting, input.pausing);
    ElapsedSplits(BeforeCheck(input) + input.starting, input.posting);
    CheckTakes(w, input);
  }

  lemma CheckTakes(w: World, input: ReportInput)
    ensures w.clock + Elapsed(BeforeCheck(input)) == AtCheck(w, input).clock
  {
    MeanwhileTakes(w, input.settling);
    MeanwhileTakes(Settled(Meanwhile(w, input.settling), w.clock, true, input.settleSkips), input.selecting);
    MeanwhileTakes(AtSelect(w, input), input.locking);
    MeanwhileTakes(AtLock(w, input), input.checking);
    ElapsedSplits(input.settling, input.selecting);
    ElapsedSplits(input.settling + input.selecting, input.locking);
    ElapsedSplits(input.settling + input.selecting + input.locking, input.checking);
  }

  /** The post of a rolled back turn stays true: nothing it rests on was this turn's to write. */
  lemma FailedPostIsOk(w: World, input: ReportInput)
    requires TableInv(w) && Posts(w, input)
    ensures PostOk(Meanwhile(w, Everything(input)), PostOf(w, input))
  {
    PostIsOk(w, input);
    StartLiesOver(w, input);
    var others, rest := Meanwhile(w, BeforeCheck(input) + input.starting), input.posting + input.pausing;
    MeanwhileSplits(w, BeforeCheck(input) + input.starting, rest);
    assert BeforeCheck(input) + input.starting + rest == Everything(input);
    MeanwhileKeeps(w, BeforeCheck(input) + input.starting);
    MeanwhileKeeps(others, rest);
    var a := PostOf(w, input).key.account;
    assert FirstCard(others, a) == FirstCard(AtStart(w, input), a);
    assert Key(a, Reg) !in TurnWrites(w, input);
  }

  lemma FailedKeeps(w: World, input: ReportInput)
    requires Inv(w) && Posts(w, input)
    ensures var v := RolledBack(w, Everything(input), AtEnd(w, input));
            Inv(v) && Grows(w, v) && Advances(w, v) && v.posts == w.posts + [PostOf(w, input)]
  {
    var end, v := AtEnd(w, input), RolledBack(w, Everything(input), AtEnd(w, input));
    FailedPostIsOk(w, input);
    EndIsLate(w, input);
    RecordedKeeps(w, input);
    var before := end.(posts := w.posts);
    RolledBackKeeps(w, Everything(input), before);
    var u := RolledBack(w, Everything(input), before);
    assert PostOk(u, PostOf(w, input));
    OneMorePost(u, PostOf(w, input));
    assert u.(posts := u.posts + [PostOf(w, input)]) == v;
  }

  /** A reporting turn, whatever comes of it, keeps what every state keeps and only moves rows on. */
  lemma ReportTurnKeeps(w: World, input: ReportInput)
    requires Inv(w)
    ensures Inv(ReportTurn(w, input).world)
    ensures Grows(w, ReportTurn(w, input).world) && Advances(w, ReportTurn(w, input).world)
    ensures ReportTurn(w, input).world.posts == w.posts + (if Posts(w, input) then [PostOf(w, input)] else [])
  {
    if Posts(w, input) {
      if input.failure.Recording? { FailedKeeps(w, input); } else { RecordedKeeps(w, input); }
    } else if !input.failure.Early? && !input.failure.Recording? && !Finds(w, input) {
      UpToStart(w, input);
      IdleKeeps(w, input);
    } else if !input.failure.Early? && !input.failure.Recording? && TooLate(w, input) {
      LateKeeps(w, input);
    } else {
      CheckTakes(w, input);
      CheckStands(w, input);
      RolledBackKeeps(w, BeforeCheck(input), AtCheck(w, input));
    }
  }
}
