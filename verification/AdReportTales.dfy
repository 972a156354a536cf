/** Two runs with a turn that forgets its post: one tells of a second account of the merchant, one never can. */
module AdReportTales {
  import opened Options
  import opened AdReportModel
  import opened AdReportSettling
  import opened AdReportTurns
  import opened AdReportInvariants
  import opened AdReportTheorems
  import opened AdReportHope
  import opened AdReportRollback
  import opened AdReportHeard

  /** A turn whose last post is a waiting store report's, and which is rolled back, forgot it. */
  lemma ForgottenByItsPost(w: World, step: Step, v: World)
    requires Inv(w) && step.Report? && step.input.failure.Recording? && v == After(w, step)
    requires |v.posts| > |w.posts|
    requires var key := v.posts[|w.posts|].key; key.event.StoreConnected? && !Left(w, key.account)
    ensures ForgetsItsPost(w, step)
  {
    OnlyReportingPosts(w, step);
  }

  // ---- The run that tells of two ----

  lemma BothStands()
    ensures Inv(BothReported()) && Inv(Forgotten())
  {
    RegistrationsGo();
    EveryRunKeeps(Opening() + [Report(Quiet(Nowhere))] + [Report(Quiet(Nowhere))]);
    TurnsTold();
    EveryRunKeeps(Turns());
  }

  lemma TheStoresPostIsForgotten()
    ensures ForgetsItsPost(BothReported(), Report(Quiet(Recording)))
  {
    BothStands();
    StoreGoesUnrecorded();
    ForgottenByItsPost(BothReported(), Report(Quiet(Recording)), Forgotten());
  }

  lemma TheFirstIsACandidate()
    ensures Candidate(Forgotten(), 7, 1)
  {
    var v := Attached(Forgotten(), 7, 1);
    assert Earliest([0]) == 0;
    assert FirstCard(v, 1) == Some(0);
    assert !Taken(v, 7);
  }

  lemma TheSecondIsTold()
    ensures ToldOf(Forgotten(), 7, 2)
  {
    assert Forgotten().posts[2].key == Key(2, StoreConnected);
  }

  /** The table the forgetting turn leaves shows the first account a candidate, and so it can be told of. */
  lemma TheFirstCanBeTold()
    ensures Run(EMPTY, Turns()) == Forgotten() && ForgetsItsPost(BothReported(), Report(Quiet(Recording)))
    ensures ToldOf(Forgotten(), 7, 2) && CanHearOfAnother(Forgotten(), 7, 2)
  {
    BothStands();
    TurnsTold();
    TheStoresPostIsForgotten();
    TheSecondIsTold();
    TheFirstIsACandidate();
    AnotherIsHeard(Forgotten(), 7, 2, 1);
  }

  lemma AnotherIsHeard(w: World, m: Merchant, a: Account, b: Account)
    requires Inv(w) && ToldOf(w, m, a) && a != b && Candidate(w, m, b)
    ensures CanHearOfAnother(w, m, a)
  {
    TellingAnchors(w, m, a);
    var steps := CandidateCanBeTold(w, m, a, b);
  }

  // ---- A run whose turn forgets its post and breaks nothing ----

  function LoneOpening(): seq<Step> {
    [Between(MakeAccount(2, Some(7))), Between(Register(2, "two")), Between(Publish(7))]
  }

  function LoneTurns(): seq<Step> {
    LoneOpening() + [Report(Quiet(Nowhere))]
  }

  function LoneOpened(): World {
    World(map[R2 := NewRegistration("two", 0), S2 := Waits("two")], map[2 := Some(7)], map[7 := [0]], 0, [])
  }

  function LoneReported(): World {
    LoneOpened().(rows := map[R2 := Reported(0), S2 := Waits("two")], clock := 1_100, posts := [Post(R2, "two", 0, 0, 0, 0)])
  }

  function LoneForgotten(): World {
    LoneReported().(clock := 2_200, posts := [Post(R2, "two", 0, 0, 0, 0), Post(S2, "two", 0, 0, 1_100, 1_100)])
  }

  lemma LoneOpens()
    ensures Run(EMPTY, LoneOpening()) == LoneOpened()
  {
    var s := LoneOpening();
    OneMoreStep([], s[0]);
    OneMoreStep([s[0]], s[1]);
    OneMoreStep([s[0], s[1]], s[2]);
    assert [s[0]] + [s[1]] == [s[0], s[1]];
    assert [s[0], s[1]] + [s[2]] == s;
    var none: seq<int> := [];
    assert none + [0] == [0];
    var two := Changed(Changed(EMPTY, MakeAccount(2, Some(7))), Register(2, "two"));
    assert two == World(Registered(2, "two", 0), map[2 := Some(7)], map[], 0, []);
    assert Changed(two, Publish(7)).cards == map[7 := [0]];
  }

  lemma LoneRegistrationGoes()
    ensures After(LoneOpened(), Report(Quiet(Nowhere))) == LoneReported()
  {
    var w := LoneOpened();
    assert Earliest([0]) == 0;
    assert Eligible(w, {}, 2) && Holds(w, {}, 2);
    assert FateOf(w, 0, true, {}, 2).Stay?;
    assert SettleWrites(w, 0, true, {}) == map[];
    assert w.rows + map[] == w.rows;
    assert IsFirstDue(w, 0, {}, R2);
    QuietTurn(w, Nowhere, map[], R2);
    assert w.rows[R2 := Reported(0)] == LoneReported().rows;
  }

  lemma LoneStoreIsPromoted()
    ensures SettleWrites(LoneReported(), 1_100, true, {}) == map[S2 := WithFate(Waits("two"), Due, Some(0), 1_100)]
  {
    var w := LoneReported();
    assert Earliest([0]) == 0;
    assert Eligible(w, {}, 2) && Holds(w, {}, 2);
    assert FateOf(w, 1_100, true, {}, 2).Due?;
    assert SettleWrites(w, 1_100, true, {}).Keys == {S2};
  }

  lemma LoneStoreGoesUnrecorded()
    ensures After(LoneReported(), Report(Quiet(Recording))) == LoneForgotten()
  {
    var w, writes := LoneReported(), map[S2 := WithFate(Waits("two"), Due, Some(0), 1_100)];
    LoneStoreIsPromoted();
    assert IsFirstDue(w.(rows := w.rows + writes), 1_100, {}, S2);
    QuietTurn(w, Recording, writes, S2);
  }

  lemma LoneTurnsTold()
    ensures Run(EMPTY, LoneTurns()) == LoneReported()
    ensures Run(EMPTY, LoneTurns() + [Report(Quiet(Recording))]) == LoneForgotten()
  {
    LoneOpens();
    OneMoreStep(LoneOpening(), Report(Quiet(Nowhere)));
    LoneRegistrationGoes();
    OneMoreStep(LoneTurns(), Report(Quiet(Recording)));
    LoneStoreGoesUnrecorded();
  }

  lemma LoneStands()
    ensures Inv(LoneReported()) && Inv(LoneForgotten())
  {
    LoneTurnsTold();
    EveryRunKeeps(LoneTurns());
    EveryRunKeeps(LoneTurns() + [Report(Quiet(Recording))]);
  }

  lemma LonePostIsForgotten()
    ensures ForgetsItsPost(LoneReported(), Report(Quiet(Recording)))
  {
    LoneStands();
    LoneStoreGoesUnrecorded();
    ForgottenByItsPost(LoneReported(), Report(Quiet(Recording)), LoneForgotten());
  }

  lemma LoneIsTold()
    ensures ToldOf(LoneForgotten(), 7, 2) && forall b | b != 2 :: !ToldOf(LoneForgotten(), 7, b)
  {
    assert LoneForgotten().posts[1].key == Key(2, StoreConnected);
  }

  /** So a turn may forget its post and the promise hold all the same, in every run that follows. */
  lemma ForgottenForNothing()
    ensures Run(EMPTY, LoneTurns() + [Report(Quiet(Recording))]) == LoneForgotten()
    ensures ForgetsItsPost(LoneReported(), Report(Quiet(Recording)))
    ensures ToldOf(LoneForgotten(), 7, 2) && !CanHearOfAnother(LoneForgotten(), 7, 2)
  {
    LoneTurnsTold();
    LoneStands();
    LonePostIsForgotten();
    LoneIsTold();
    HeardOfAnotherExactly(LoneForgotten(), 7, 2);
  }
}
