/** One process's loop, round after round, among the steps of all the others. */
module AdReportLoop {
  import opened AdReportModel
  import opened AdReportTurns
  import opened AdReportInvariants
  import opened AdReportTheorems
  import opened AdReportMeasure

  /**
   * One round of a loop: what others do until its turn has the lock, the turn, whether the loop is stopped
   * by its end, and what others do while it pauses, a stop cutting the pause short.
   */
  datatype Pass = Pass(before: seq<Step>, turn: Step, stopsInTurn: bool, idling: seq<Step>, stopsInIdle: bool)

  predicate Stops(pass: Pass, idles: bool) {
    pass.stopsInTurn || (idles && pass.stopsInIdle)
  }

  function StepsOf(pass: Pass, idles: bool): seq<Step> {
    pass.before + [pass.turn] + if idles then pass.idling else []
  }

  /** The steps of the rounds so far, one after another. */
  function Trail(passes: seq<Pass>, idled: seq<bool>): seq<Step>
    requires |idled| <= |passes|
  {
    if idled == [] then []
    else Trail(passes, idled[..|idled| - 1]) + StepsOf(passes[|idled| - 1], idled[|idled| - 1])
  }

  ghost predicate Takes(w: World, turn: Step) {
    turn.Report? && ReportTurn(w, turn.input).took.Took?
  }

  /** Whether a round's turn took a report, from the state its turn began in. */
  ghost predicate TookAt(w: World, passes: seq<Pass>, idled: seq<bool>, i: nat)
    requires i < |idled| <= |passes|
  {
    Takes(Run(w, Trail(passes, idled[..i]) + passes[i].before), passes[i].turn)
  }

  function Count(tooks: seq<bool>): nat {
    if tooks == [] then 0 else Count(tooks[..|tooks| - 1]) + if tooks[|tooks| - 1] then 1 else 0
  }

  /** `tooks` says of each round so far whether its turn took a report. */
  ghost predicate Tells(w: World, passes: seq<Pass>, tooks: seq<bool>, idled: seq<bool>) {
    && |tooks| == |idled| <= |passes|
    && (forall i: nat | i < |idled| :: tooks[i] == TookAt(w, passes, idled, i))
  }

  /**
   * A loop's rounds so far: it paused after exactly the turns that took no report, one that failed among
   * them, unless it was stopped meanwhile, went straight on after the rest, and began no turn once it was
   * stopped.
   */
  predicate Paced(passes: seq<Pass>, tooks: seq<bool>, idled: seq<bool>) {
    && |tooks| == |idled| <= |passes|
    && (forall i: nat | i < |idled| :: idled[i] <==> !tooks[i] && !passes[i].stopsInTurn)
    && (forall i: nat | i < |idled| - 1 :: !passes[i].stopsInTurn && (idled[i] ==> !passes[i].stopsInIdle))
  }

  predicate Stopped(passes: seq<Pass>, idled: seq<bool>)
    requires |idled| <= |passes|
  {
    idled != [] && (passes[|idled| - 1].stopsInTurn || (idled[|idled| - 1] && passes[|idled| - 1].stopsInIdle))
  }

  /** The same run in one and in two. */
  ghost predicate Splits(w: World, one: seq<Step>, v: World, other: seq<Step>) {
    && Run(w, one + other) == Run(v, other)
    && TurnsTaken(w, one + other) == TurnsTaken(w, one) + TurnsTaken(v, other)
  }

  lemma {:induction false} RunSplits(w: World, one: seq<Step>, v: World, other: seq<Step>)
    requires v == Run(w, one)
    ensures Splits(w, one, v, other)
    decreases |other|, 1
  {
    if other == [] {
      SplitsNone(w, one, v);
    } else {
      LastApart(other);
      RunSplitsBy(w, one, v, other[..|other| - 1], other[|other| - 1]);
    }
  }

  lemma {:induction false} RunSplitsBy(w: World, one: seq<Step>, v: World, other: seq<Step>, step: Step)
    requires v == Run(w, one)
    ensures Splits(w, one, v, other + [step])
    decreases |other|, 2
  {
    RunSplits(w, one, v, other);
    SplitsOn(w, one, v, other, step);
  }

  lemma LastApart(steps: seq<Step>)
    requires steps != []
    ensures steps[..|steps| - 1] + [steps[|steps| - 1]] == steps
  {}

  lemma OneLonger(steps: seq<Step>, i: nat)
    requires i < |steps|
    ensures steps[..i + 1] == steps[..i] + [steps[i]]
  {}

  lemma SplitsNone(w: World, one: seq<Step>, v: World)
    requires v == Run(w, one)
    ensures Splits(w, one, v, [])
  {
    assert one + [] == one;
  }

  lemma SplitsOn(w: World, one: seq<Step>, v: World, other: seq<Step>, step: Step)
    requires Splits(w, one, v, other)
    ensures Splits(w, one, v, other + [step])
  {
    AddedLast(one, other, step);
    RunOn(w, one + other, step);
    RunOn(v, other, step);
  }

  lemma AddedLast(one: seq<Step>, other: seq<Step>, step: Step)
    ensures one + (other + [step]) == one + other + [step]
  {}

  lemma RunOn(w: World, steps: seq<Step>, step: Step)
    ensures Run(w, steps + [step]) == After(Run(w, steps), step)
    ensures TurnsTaken(w, steps + [step]) == TurnsTaken(w, steps) + if Takes(Run(w, steps), step) then 1 else 0
  {
    assert (steps + [step])[..|steps|] == steps;
  }

  /** A round's own run: what comes before the turn, the turn, what comes after. */
  lemma PassRuns(w: World, pass: Pass, idles: bool)
    ensures var turned := After(Run(w, pass.before), pass.turn);
            Run(w, StepsOf(pass, idles)) == if idles then Run(turned, pass.idling) else turned
    ensures TurnsTaken(w, StepsOf(pass, idles)) >= if Takes(Run(w, pass.before), pass.turn) then 1 else 0
  {
    var turned := pass.before + [pass.turn];
    RunOn(w, pass.before, pass.turn);
    RunSplits(w, turned, Run(w, turned), if idles then pass.idling else []);
    assert turned + [] == turned;
  }

  /** One more round, after which the run stands at what the round made of it. */
  lemma TrailOn(w: World, passes: seq<Pass>, idled: seq<bool>, idles: bool)
    requires |idled| < |passes|
    ensures var pass, trail := passes[|idled|], Trail(passes, idled);
            && Run(w, Trail(passes, idled + [idles])) == Run(Run(w, trail), StepsOf(pass, idles))
            && TurnsTaken(w, Trail(passes, idled + [idles])) == TurnsTaken(w, trail) + TurnsTaken(Run(w, trail), StepsOf(pass, idles))
  {
    assert (idled + [idles])[..|idled|] == idled;
    RunSplits(w, Trail(passes, idled), Run(w, Trail(passes, idled)), StepsOf(passes[|idled|], idles));
  }

  lemma TookOn(w: World, passes: seq<Pass>, idled: seq<bool>, idles: bool)
    requires |idled| < |passes|
    ensures forall i: nat | i < |idled| :: TookAt(w, passes, idled + [idles], i) == TookAt(w, passes, idled, i)
    ensures TookAt(w, passes, idled + [idles], |idled|)
         == Takes(Run(Run(w, Trail(passes, idled)), passes[|idled|].before), passes[|idled|].turn)
  {
    RunSplits(w, Trail(passes, idled), Run(w, Trail(passes, idled)), passes[|idled|].before);
    assert (idled + [idles])[..|idled|] == idled;
    forall i: nat | i < |idled| ensures TookAt(w, passes, idled + [idles], i) == TookAt(w, passes, idled, i) {
      assert (idled + [idles])[..i] == idled[..i];
    }
  }

  lemma TellsOn(w: World, passes: seq<Pass>, tooks: seq<bool>, idled: seq<bool>, took: bool, idles: bool)
    requires Tells(w, passes, tooks, idled) && |idled| < |passes|
    requires took == Takes(Run(Run(w, Trail(passes, idled)), passes[|idled|].before), passes[|idled|].turn)
    ensures Tells(w, passes, tooks + [took], idled + [idles])
  {
    TookOn(w, passes, idled, idles);
  }

  lemma PacedOn(passes: seq<Pass>, tooks: seq<bool>, idled: seq<bool>, took: bool, idles: bool)
    requires Paced(passes, tooks, idled) && |idled| < |passes| && !Stopped(passes, idled)
    requires idles <==> !took && !passes[|idled|].stopsInTurn
    ensures Paced(passes, tooks + [took], idled + [idles])
  {}

  /** What has been taken so far is counted among the run's turns that took a report. */
  ghost predicate Counts(w: World, passes: seq<Pass>, tooks: seq<bool>, idled: seq<bool>)
    requires |idled| <= |passes|
  {
    Count(tooks) <= TurnsTaken(w, Trail(passes, idled))
  }

  /** Where a loop that began in `w` stands after some rounds. */
  ghost predicate LoopsTo(w: World, v: World, passes: seq<Pass>, tooks: seq<bool>, idled: seq<bool>)
    requires |idled| <= |passes|
  {
    && Inv(v) && v == Run(w, Trail(passes, idled))
    && Tells(w, passes, tooks, idled) && Paced(passes, tooks, idled) && Counts(w, passes, tooks, idled)
  }

  lemma LoopBegins(w: World, passes: seq<Pass>)
    requires Inv(w)
    ensures LoopsTo(w, w, passes, [], []) && !Stopped(passes, [])
  {}

  lemma StoppedOn(passes: seq<Pass>, idled: seq<bool>, idles: bool)
    requires |idled| < |passes|
    ensures Stopped(passes, idled + [idles]) == Stops(passes[|idled|], idles)
  {}

  lemma LoopComesToRest(w: World, v: World, passes: seq<Pass>, tooks: seq<bool>, idled: seq<bool>)
    requires Inv(w) && |idled| <= |passes| && LoopsTo(w, v, passes, tooks, idled)
    ensures Count(tooks) <= 10 * |w.rows| + 19 * AllRegistrations(Trail(passes, idled))
  {
    TheLoopComesToRest(w, Trail(passes, idled));
  }

  /** Where a run from `w` stands, with the turns that took a report. */
  ghost predicate RunsTo(w: World, v: World, steps: seq<Step>, busy: nat) {
    v == Run(w, steps) && busy == TurnsTaken(w, steps)
  }

  lemma RunBegins(w: World)
    ensures RunsTo(w, w, [], 0)
  {}

  lemma RunComesToRest(w: World, v: World, steps: seq<Step>, busy: nat)
    requires Inv(w) && RunsTo(w, v, steps, busy)
    ensures Inv(v) && busy <= 10 * |w.rows| + 19 * AllRegistrations(steps)
  {
    RunKeeps(w, steps);
    TheLoopComesToRest(w, steps);
  }

  lemma CountsOn(w: World, passes: seq<Pass>, tooks: seq<bool>, idled: seq<bool>, took: bool, idles: bool)
    requires |idled| < |passes| && Counts(w, passes, tooks, idled)
    requires took == Takes(Run(Run(w, Trail(passes, idled)), passes[|idled|].before), passes[|idled|].turn)
    ensures Counts(w, passes, tooks + [took], idled + [idles])
  {
    TrailOn(w, passes, idled, idles);
    PassRuns(Run(w, Trail(passes, idled)), passes[|idled|], idles);
    CountOn(tooks, took);
  }

  lemma CountOn(tooks: seq<bool>, took: bool)
    ensures Count(tooks + [took]) == Count(tooks) + if took then 1 else 0
  {
    assert (tooks + [took])[..|tooks|] == tooks;
  }
}
