/** One store post a merchant: the one kind of failed turn after which the posts no longer keep what the table keeps. */
module AdReportRollback {
  import opened Options
  import opened AdReportModel
  import opened AdReportSettling
  import opened AdReportTurns
  import opened AdReportInvariants
  import opened AdReportRuns
  import opened AdReportTheorems
  import opened AdReportErasure

  /** A store post is on record while its account's store report has left. */
  predicate Recorded(w: World, post: Post) {
    post.key.event.StoreConnected? ==> post.key.account in w.merchantOf && Left(w, post.key.account)
  }

  ghost predicate OnRecord(w: World) {
    forall i | 0 <= i < |w.posts| :: Recorded(w, w.posts[i])
  }

  /** The turn that posts a store report it promoted itself, and is rolled back. */
  ghost predicate ForgetsItsPost(w: World, step: Step) {
    && step.Report? && step.input.failure.Recording?
    && Posts(w, step.input)
    && PostOf(w, step.input).key.event.StoreConnected?
    && !Left(w, PostOf(w, step.input).key.account)
  }

  lemma RecordedStays(w: World, step: Step, post: Post)
    requires Inv(w) && Recorded(w, post)
    ensures Recorded(After(w, step), post)
  {
    StepKeeps(w, step);
    var k := Key(post.key.account, StoreConnected);
    if post.key.event.StoreConnected? {
      assert Earned(w, post.key.account);
      assert k in After(w, step).rows && Advanced(w.rows[k], After(w, step).rows[k]);
    }
  }

  /** A turn that commits leaves the row it posted of pending or final. */
  lemma CommittedIsRecorded(w: World, input: ReportInput)
    requires Inv(w) && Posts(w, input)
    ensures Recorded(AtEnd(w, input), PostOf(w, input))
  {
    var answered, post := AtAnswer(w, input), PostOf(w, input);
    var recorded := WithRow(answered, post.key, AfterAnswer(FoundRow(w, input), input.answer, answered.clock));
    RowsStay(recorded, input.pausing, post.key);
    RecordedKeeps(w, input);
    assert PostOk(AtEnd(w, input), AtEnd(w, input).posts[|w.posts|]);
    PostIsOk(w, input);
    assert post.key == Key(post.key.account, post.key.event);
    assert !Unsent(AfterAnswer(FoundRow(w, input), input.answer, answered.clock).state);
  }

  /** A turn that is rolled back leaves the row as the turn found it. */
  lemma RolledBackIsAsBefore(w: World, input: ReportInput)
    requires Inv(w) && Posts(w, input)
    ensures var v := RolledBack(w, Everything(input), AtEnd(w, input));
            Recorded(v, PostOf(w, input)) <==>
              (PostOf(w, input).key.event.StoreConnected? ==> Left(w, PostOf(w, input).key.account))
  {
    var k := PostOf(w, input).key;
    if k.event.StoreConnected? {
      assert k == Key(k.account, StoreConnected);
      FailedKeeps(w, input);
      var v := RolledBack(w, Everything(input), AtEnd(w, input));
      assert PostOk(v, v.posts[|w.posts|]);
      if k in w.rows {
        RowsStay(w, Everything(input), k);
      } else if k in v.rows {
        NewcomersAreOpen(w, Everything(input), k);
      }
    }
  }

  /** The trace stays on record through every step except a turn that forgets its post. */
  lemma OnRecordUnlessForgotten(w: World, step: Step)
    requires Inv(w) && OnRecord(w)
    ensures OnRecord(After(w, step)) <==> !ForgetsItsPost(w, step)
  {
    var v := After(w, step);
    forall i | 0 <= i < |w.posts| ensures Recorded(v, w.posts[i]) { RecordedStays(w, step, w.posts[i]); }
    match step
    case Between(c) => ChangingKeeps(w, c);
    case Delete(a) => DeletingKeeps(w, a);
    case Expire(input) => ExpireTurnKeeps(w, input);
    case Report(input) =>
      ReportTurnKeeps(w, input);
      if Posts(w, input) {
        CommittedIsRecorded(w, input);
        RolledBackIsAsBefore(w, input);
        assert v.posts[|w.posts|] == PostOf(w, input);
      }
  }

  lemma {:induction false} RunsStayOnRecord(steps: seq<Step>)
    requires forall j | 0 <= j < |steps| :: !ForgetsItsPost(Run(EMPTY, steps[..j]), steps[j])
    ensures OnRecord(Run(EMPTY, steps))
  {
    if steps != [] {
      var last := |steps| - 1;
      var shorter := steps[..last];
      forall j | 0 <= j < |shorter| ensures !ForgetsItsPost(Run(EMPTY, shorter[..j]), shorter[j]) {
        assert shorter[..j] == steps[..j];
      }
      RunsStayOnRecord(shorter);
      EveryRunKeeps(shorter);
      OnRecordUnlessForgotten(Run(EMPTY, shorter), steps[last]);
    }
  }

  /** With no turn forgetting its post, the tracker hears of each merchant's store for one account only. */
  lemma OneStorePostedAMerchant(steps: seq<Step>, i: nat, j: nat)
    requires forall n | 0 <= n < |steps| :: !ForgetsItsPost(Run(EMPTY, steps[..n]), steps[n])
    requires i < |Run(EMPTY, steps).posts| && Run(EMPTY, steps).posts[i].key.event.StoreConnected?
    requires j < |Run(EMPTY, steps).posts| && Run(EMPTY, steps).posts[j].key.event.StoreConnected?
    ensures var w := Run(EMPTY, steps);
            var a, b := w.posts[i].key.account, w.posts[j].key.account;
            a in w.merchantOf && b in w.merchantOf && (w.merchantOf[a] == w.merchantOf[b] ==> a == b)
  {
    RunsStayOnRecord(steps);
    EveryRunKeeps(steps);
    assert Recorded(Run(EMPTY, steps), Run(EMPTY, steps).posts[i]);
    assert Recorded(Run(EMPTY, steps), Run(EMPTY, steps).posts[j]);
  }

  // ---- A run whose tracker hears of one merchant's store twice ----

  function Quiet(failure: Failure): ReportInput {
    ReportInput([], {}, [], [], {}, [], [], Status(200), [], [], failure)
  }

  /** A turn nothing disturbs, accepted by the tracker, from what its settling and its choice come to. */
  lemma QuietTurn(w: World, failure: Failure, writes: map<Key, Row>, k: Key)
    requires !failure.Early?
    requires SettleWrites(w, w.clock, true, {}) == writes
    requires var v := w.(rows := w.rows + writes);
             && IsFirstDue(v, w.clock, {}, k) && v.rows[k].click.Some? && v.rows[k].eventAt.Some?
             && w.clock < LastTry(v.rows[k].eventAt.value, v.rows[k].createdAt)
    ensures var row := (w.rows + writes)[k];
            var post := Post(k, row.click.value, row.eventAt.value, row.createdAt, w.clock, w.clock);
            After(w, Report(Quiet(failure))) ==
              (if failure.Recording? then w.(clock := w.clock + SPACED_MS, posts := w.posts + [post])
               else World((w.rows + writes)[k := Settle(row, Delivered, Http(200), row.attempts + 1, w.clock)],
                          w.merchantOf, w.cards, w.clock + SPACED_MS, w.posts + [post]))
  {
    var input := Quiet(failure);
    var v := w.(rows := w.rows + writes);
    assert AtLock(w, input) == v && SelectAt(w, input) == w.clock;
    FirstDueIsOne(v, w.clock, {}, k, FirstDue(v, w.clock, {}));
  }

  function Waits(click: string): Row { NewStoreReport(click, 0) }

  function Reported(at: int): Row { Settle(NewRegistration("", 0), Delivered, Http(200), 1, at) }

  const R1 := Key(1, Reg)
  const R2 := Key(2, Reg)
  const S1 := Key(1, StoreConnected)
  const S2 := Key(2, StoreConnected)

  /** Two people from an ad at one moment, one of them of merchant 7, which then publishes its first card. */
  function Opening(): seq<Step> {
    [Between(MakeAccount(1, None)), Between(Register(1, "one")),
     Between(MakeAccount(2, Some(7))), Between(Register(2, "two")), Between(Publish(7))]
  }

  function Opened(): World {
    World(map[R1 := NewRegistration("one", 0), S1 := Waits("one"), R2 := NewRegistration("two", 0), S2 := Waits("two")],
          map[1 := None, 2 := Some(7)], map[7 := [0]], 0, [])
  }

  lemma OneMoreStep(steps: seq<Step>, step: Step)
    ensures Run(EMPTY, steps + [step]) == After(Run(EMPTY, steps), step)
  {
    assert (steps + [step])[..|steps|] == steps;
  }

  lemma OpeningOpens()
    ensures Run(EMPTY, Opening()) == Opened()
  {
    var s := Opening();
    OneMoreStep([], s[0]);
    OneMoreStep([s[0]], s[1]);
    OneMoreStep([s[0], s[1]], s[2]);
    OneMoreStep([s[0], s[1], s[2]], s[3]);
    OneMoreStep([s[0], s[1], s[2], s[3]], s[4]);
    assert [s[0]] + [s[1]] == [s[0], s[1]];
    assert [s[0], s[1]] + [s[2]] == [s[0], s[1], s[2]];
    assert [s[0], s[1], s[2]] + [s[3]] == [s[0], s[1], s[2], s[3]];
    assert [s[0], s[1], s[2], s[3]] + [s[4]] == s;
    OpeningByHand();
  }

  lemma OpeningByHand()
    ensures var one := Changed(Changed(EMPTY, MakeAccount(1, None)), Register(1, "one"));
            Changed(Changed(Changed(one, MakeAccount(2, Some(7))), Register(2, "two")), Publish(7)) == Opened()
  {
    var one := Changed(Changed(EMPTY, MakeAccount(1, None)), Register(1, "one"));
    assert one == World(Registered(1, "one", 0), map[1 := None], map[], 0, []);
    var two := Changed(Changed(one, MakeAccount(2, Some(7))), Register(2, "two"));
    assert two.rows == Registered(1, "one", 0) + Registered(2, "two", 0);
    assert two.rows == Opened().rows;
    assert two.cards == map[] && two.clock == 0;
    var none: seq<int> := [];
    assert none + [0] == [0];
    assert Changed(two, Publish(7)).cards == two.cards[7 := [0]];
  }

  /** Both registrations delivered. */
  function BothReported(): World {
    Opened().(rows := map[R1 := Reported(0), S1 := Waits("one"), R2 := Reported(1_100), S2 := Waits("two")],
              clock := 2_200,
              posts := [Post(R1, "one", 0, 0, 0, 0), Post(R2, "two", 0, 0, 1_100, 1_100)])
  }

  function OneReported(): World {
    Opened().(rows := map[R1 := Reported(0), S1 := Waits("one"), R2 := NewRegistration("two", 0), S2 := Waits("two")],
              clock := 1_100, posts := [Post(R1, "one", 0, 0, 0, 0)])
  }

  lemma NothingToSettleYet()
    ensures SettleWrites(Opened(), 0, true, {}) == map[]
  {
    var w := Opened();
    assert FateOf(w, 0, true, {}, 1).Stay?;
    assert FateOf(w, 0, true, {}, 2).Stay? by {
      assert Earliest([0]) == 0;
      assert Eligible(w, {}, 2) && Holds(w, {}, 2);
    }
  }

  lemma FirstIsDue()
    ensures IsFirstDue(Opened(), 0, {}, R1) && Opened().rows + map[] == Opened().rows
  {
  }

  lemma FirstRegistrationGoes()
    ensures After(Opened(), Report(Quiet(Nowhere))) == OneReported()
  {
    var w := Opened();
    NothingToSettleYet();
    FirstIsDue();
    QuietTurn(w, Nowhere, map[], R1);
    assert w.rows[R1 := Reported(0)] == OneReported().rows;
  }

  lemma NothingToSettle()
    ensures SettleWrites(OneReported(), 1_100, true, {}) == map[]
  {
    var w := OneReported();
    assert !Holds(w, {}, 1);
    assert FateOf(w, 1_100, true, {}, 1).Stay?;
    assert FateOf(w, 1_100, true, {}, 2).Stay? by {
      assert Earliest([0]) == 0;
      assert Eligible(w, {}, 2) && Holds(w, {}, 2);
    }
  }

  lemma SecondIsDue()
    ensures IsFirstDue(OneReported(), 1_100, {}, R2) && OneReported().rows + map[] == OneReported().rows
  {
  }

  lemma SecondRegistrationGoes()
    ensures After(OneReported(), Report(Quiet(Nowhere))) == BothReported()
  {
    var w := OneReported();
    NothingToSettle();
    SecondIsDue();
    QuietTurn(w, Nowhere, map[], R2);
    assert w.rows[R2 := Reported(1_100)] == BothReported().rows;
  }

  /** The store's turn: it promotes and posts account 2's report, and its outcome cannot be recorded. */
  lemma StoreGoesUnrecorded()
    ensures After(BothReported(), Report(Quiet(Recording))) == Forgotten()
  {
    StoreIsPromoted();
    var w := BothReported();
    assert IsFirstDue(w.(rows := w.rows + map[S2 := FirstPromoted()]), 2_200, {}, S2);
    QuietTurn(w, Recording, map[S2 := FirstPromoted()], S2);
  }

  function FirstPromoted(): Row { WithFate(Waits("two"), Due, Some(0), 2_200) }

  lemma StoreIsPromoted()
    ensures SettleWrites(BothReported(), 2_200, true, {}) == map[S2 := FirstPromoted()]
  {
    var w := BothReported();
    assert Earliest([0]) == 0;
    assert Holds(w, {}, 2);
    assert FateOf(w, 2_200, true, {}, 2).Due? && FateOf(w, 2_200, true, {}, 1).Stay?;
    assert SettleWrites(w, 2_200, true, {}).Keys == {S2};
  }

  function Forgotten(): World {
    BothReported().(clock := 3_300, posts := BothReported().posts + [Post(S2, "two", 0, 0, 2_200, 2_200)])
  }

  /** Then account 1, no later a registration, joins the merchant. */
  function Joined(): World {
    Forgotten().(merchantOf := map[1 := Some(7), 2 := Some(7)])
  }

  lemma FateOfTheTwo()
    ensures Holds(Joined(), {}, 1) && !Holds(Joined(), {}, 2)
    ensures FateOf(Joined(), 3_300, true, {}, 1) == Due
    ensures FateOf(Joined(), 3_300, true, {}, 2) == Lapse(BelongsToAnotherAccount)
    ensures FirstCard(Joined(), 1) == FirstCard(Joined(), 2) == Some(0)
  {
    assert Earliest([0]) == 0;
    assert Eligible(Joined(), {}, 1) && Eligible(Joined(), {}, 2);
  }

  function Promoted(): Row { WithFate(Waits("one"), Due, Some(0), 3_300) }
  function LostOut(): Row { WithFate(Waits("two"), Lapse(BelongsToAnotherAccount), Some(0), 3_300) }

  lemma TheTwoAreSettled()
    ensures SettleWrites(Joined(), 3_300, true, {}) == map[S1 := Promoted(), S2 := LostOut()]
  {
    FateOfTheTwo();
    var writes := SettleWrites(Joined(), 3_300, true, {});
    assert writes.Keys == {S1, S2};
  }

  /** The next turn posts its report. */
  lemma StoreGoesAgain()
    ensures After(Joined(), Report(Quiet(Nowhere))).posts == Forgotten().posts + [Post(S1, "one", 0, 0, 3_300, 3_300)]
    ensures After(Joined(), Report(Quiet(Nowhere))).merchantOf == Joined().merchantOf
  {
    TheTwoAreSettled();
    var writes := map[S1 := Promoted(), S2 := LostOut()];
    PromotedIsDue(Joined().(rows := Joined().rows + writes));
    QuietTurn(Joined(), Nowhere, writes, S1);
  }

  lemma PromotedIsDue(w: World)
    requires w.rows == Joined().rows + map[S1 := Promoted(), S2 := LostOut()]
    ensures IsFirstDue(w, 3_300, {}, S1)
  {
    assert w.rows == map[R1 := Reported(0), S1 := Promoted(), R2 := Reported(1_100), S2 := LostOut()];
  }

  function Turns(): seq<Step> {
    Opening() + [Report(Quiet(Nowhere))] + [Report(Quiet(Nowhere))] + [Report(Quiet(Recording))]
  }

  function Story(): seq<Step> {
    Turns() + [Between(Attach(1, 7))] + [Report(Quiet(Nowhere))]
  }

  lemma RegistrationsGo()
    ensures Run(EMPTY, Opening() + [Report(Quiet(Nowhere))] + [Report(Quiet(Nowhere))]) == BothReported()
  {
    var turn := Report(Quiet(Nowhere));
    OpeningOpens();
    OneMoreStep(Opening(), turn);
    FirstRegistrationGoes();
    OneMoreStep(Opening() + [turn], turn);
    SecondRegistrationGoes();
  }

  lemma TurnsTold()
    ensures Run(EMPTY, Turns()) == Forgotten()
  {
    RegistrationsGo();
    OneMoreStep(Opening() + [Report(Quiet(Nowhere))] + [Report(Quiet(Nowhere))], Report(Quiet(Recording)));
    StoreGoesUnrecorded();
  }

  lemma StoryTold()
    ensures Run(EMPTY, Story()) == After(Joined(), Report(Quiet(Nowhere)))
  {
    TurnsTold();
    JoinedAfter(Turns());
    OneMoreStep(Turns() + [Between(Attach(1, 7))], Report(Quiet(Nowhere)));
  }

  lemma JoinedAfter(steps: seq<Step>)
    requires Run(EMPTY, steps) == Forgotten()
    ensures Run(EMPTY, steps + [Between(Attach(1, 7))]) == Joined()
  {
    OneMoreStep(steps, Between(Attach(1, 7)));
    assert map[1 := None, 2 := Some(7)][1 := Some(7)] == map[1 := Some(7), 2 := Some(7)];
  }

  /** So the promise fails of this run, in which such a turn is rolled back: two accounts of one merchant are posted. */
  lemma TwoStoresPostedForOneMerchant()
    ensures var w := Run(EMPTY, Story());
            && |w.posts| == 4
            && w.posts[2].key == Key(2, StoreConnected) && w.posts[3].key == Key(1, StoreConnected)
            && w.merchantOf == map[1 := Some(7), 2 := Some(7)]
  {
    StoryTold();
    StoreGoesAgain();
  }
}
