/** The table changed in place: a transaction's writes lie over the committed rows until it commits or is rolled back. */
module AdReportOutbox {
  import opened Options
  import opened AdReportModel
  import opened AdReportSettling
  import opened AdReportStatement
  import opened AdReportTurns
  import opened AdReportInvariants
  import opened AdReportRuns
  import opened AdReportTheorems
  import opened AdReportMeasure
  import opened AdReportHope
  import opened AdReportRecords
  import opened AdReportLoop

  class Outbox {
    var rows: map<Key, Row>
    var writes: map<Key, Row>  // the open transaction's
    var merchantOf: map<Account, Option<Merchant>>
    var cards: map<Merchant, seq<int>>
    var clock: int
    var posts: seq<Post>

    /** What others see: everything committed. */
    function Committed(): World reads this {
      World(rows, merchantOf, cards, clock, posts)
    }

    /** What the open transaction sees. */
    function View(): World reads this {
      World(rows + writes, merchantOf, cards, clock, posts)
    }

    predicate Open() reads this {
      writes.Keys <= rows.Keys
    }

    predicate Idle() reads this {
      writes == map[]
    }

    constructor ()
      ensures Idle() && Committed() == EMPTY
    {
      rows, writes, merchantOf, cards, clock, posts := map[], map[], map[], map[], 0, [];
    }

    /** What other connections commit, and the time that passes, while this one waits. */
    method Await(changes: seq<Change>)
      requires Open()
      modifies this
      ensures Open() && writes == old(writes) && old(rows.Keys) <= rows.Keys
      ensures Committed() == Meanwhile(old(Committed()), changes)
      ensures View() == Meanwhile(old(View()), changes)
    {
      WritesLieOver(Committed(), writes, posts, changes);
      PostsApart(Committed(), posts, changes);
      assert Committed().(rows := rows + writes, posts := posts) == View();
      var i := 0;
      while i < |changes|
        invariant 0 <= i <= |changes|
        invariant writes == old(writes) && posts == old(posts)
        invariant Meanwhile(Committed(), changes[i..]) == Meanwhile(old(Committed()), changes)
      {
        var w := Changed(Committed(), changes[i]);
        rows, merchantOf, cards, clock := w.rows, w.merchantOf, w.cards, w.clock;
        assert changes[i..][1..] == changes[i + 1..];
        assert Committed() == w;
        i := i + 1;
      }
      assert changes[i..] == [];
    }

    method Commit()
      requires Open()
      modifies this`rows, this`writes
      ensures Idle() && Committed() == old(View())
    {
      rows, writes := rows + writes, map[];
    }

    method RollBack()
      modifies this`writes
      ensures Idle() && Committed() == old(Committed())
    {
      writes := map[];
    }

    /**
     * The statement, run over what the transaction sees: each waiting report ends as the table it read says,
     * reason and all, the table stays sound, and what has no hope is closed but for what the table says is left.
     */
    method SettleWaiting(at: int, promote: bool, skips: set<Account>)
      requires Open()
      modifies this`writes
      ensures Open() && Committed() == old(Committed())
      ensures View() == Settled(old(View()), at, promote, skips)
      ensures old(TableInv(View())) ==> TableInv(View()) && ClosesTheHopeless(old(View()), View(), at, promote, skips)
      ensures old(TableInv(View())) ==> SettledByTheTable(old(View()), View(), at, promote, skips)
    {
      var settled := SettlingUpdate(View(), at, promote, skips);
      assert settled.Keys <= rows.Keys;
      assert rows + (writes + settled) == rows + writes + settled;
      ghost var before := View();
      writes := writes + settled;
      if TableInv(before) {
        SettlingKeepsRows(before, at, promote, skips);
        SettlingKeepsStores(before, at, promote, skips);
        SettlingClosesTheHopeless(before, at, promote, skips);
        SettlingIsByTheTable(before, at, promote, skips);
      }
    }

    method GiveUpLate(at: int)
      requires Open()
      modifies this`writes
      ensures Open() && Committed() == old(Committed())
      ensures View() == GivenUpLate(old(View()), at)
    {
      var late := GiveUpLateWrites(rows + writes, at);
      assert late.Keys <= rows.Keys;
      assert rows + (writes + late) == rows + writes + late;
      writes := writes + late;
    }

    method WriteRow(k: Key, row: Row)
      requires Open() && k in rows
      modifies this`writes
      ensures Open() && Committed() == old(Committed())
      ensures View() == WithRow(old(View()), k, row)
    {
      assert rows + writes[k := row] == (rows + writes)[k := row];
      writes := writes[k := row];
    }

    /** The pause that ends a post's turn. */
    method HoldSpacing(started: int, changes: seq<Change>)
      requires Open()
      modifies this
      ensures Open() && writes == old(writes)
      ensures View() == Paused(old(View()), started, changes)
      ensures Committed() == Meanwhile(old(Committed()), changes).(clock := View().clock)
    {
      var left := SPACED_MS - (clock - started);
      var until := clock + left;
      Await(changes);
      if left > 0 && clock < until { clock := until; }
    }
  
    /** The row a turn takes, if any is due, and no other transaction holds. */
    method TakeDue(at: int, skips: set<Key>) returns (taken: Option<Key>)
      requires Open()
      ensures taken.None? <==> !AnyDue(View(), at, skips)
      ensures taken.Some? ==> taken.value == FirstDue(View(), at, skips) && taken.value in rows
    {
      var view := View();
      if k :| k in view.rows && IsFirstDue(view, at, skips, k) {
        FirstDueIsOne(view, at, skips, k, FirstDue(view, at, skips));
        return Some(k);
      } else {
        if AnyDue(view, at, skips) { FirstDueExists(view, at, skips); }
        return None;
      }
    }

    /** What the turn does once its row is in time: it posts, records the outcome, and holds the spacing. */
    method PostAndRecord(k: Key, row: Row, checkedAt: int, input: ReportInput)
      requires Open() && k in rows
      requires row.click.Some? && row.eventAt.Some?
      modifies this
      ensures Open()
      ensures var post := Post(k, row.click.value, row.eventAt.value, row.createdAt, checkedAt, old(clock));
              var posted := old(View()).(posts := old(posts) + [post]);
              var answered := Meanwhile(posted, input.posting);
              && View() == Paused(WithRow(answered, k, AfterAnswer(row, input.answer, answered.clock)), old(clock), input.pausing)
              && Committed() == Meanwhile(old(Committed()), input.posting + input.pausing).(clock := clock, posts := posts)
    {
      var started := clock;
      ghost var sent := posts + [Post(k, row.click.value, row.eventAt.value, row.createdAt, checkedAt, started)];
      PostsApart(Committed(), sent, input.posting);
      PostsApart(Meanwhile(Committed(), input.posting), sent, input.pausing);
      MeanwhileSplits(Committed(), input.posting, input.pausing);
      posts := posts + [Post(k, row.click.value, row.eventAt.value, row.createdAt, checkedAt, started)];
      Await(input.posting);
      WriteRow(k, AfterAnswer(row, input.answer, clock));
      HoldSpacing(started, input.pausing);
    }
  
    /** The turn up to its lock on the due row. */
    method SettleAndTake(input: ReportInput) returns (taken: Option<Key>)
      requires Idle()
      modifies this
      ensures Open() && View() == AtLock(old(Committed()), input)
      ensures Committed() == Meanwhile(old(Committed()), input.settling + input.selecting + input.locking)
      ensures taken.Some? <==> Finds(old(Committed()), input)
      ensures taken.Some? ==> taken.value == Found(old(Committed()), input) && taken.value in rows
    {
      ghost var w := Committed();
      assert View() == w by { assert rows + map[] == rows; }
      MeanwhileSplits(w, input.settling, input.selecting);
      MeanwhileSplits(w, input.settling + input.selecting, input.locking);
      var at := clock;
      Await(input.settling);
      SettleWaiting(at, true, input.settleSkips);
      Await(input.selecting);
      var selectAt := clock;
      Await(input.locking);
      taken := TakeDue(selectAt, input.dueSkips);
    }

    /** The turn from its check on, when the row is in time. */
    method PostInTime(ghost w: World, k: Key, row: Row, input: ReportInput) returns (took: Took)
      requires Open() && k in rows && !input.failure.Early?
      requires View() == AtCheck(w, input) && Committed() == Meanwhile(w, BeforeCheck(input))
      requires Posts(w, input) && k == Found(w, input) && row == FoundRow(w, input)
      modifies this
      ensures Idle() && Turn(Committed(), took) == ReportTurn(w, input)
    {
      MeanwhileSplits(w, BeforeCheck(input), input.starting);
      MeanwhileSplits(w, BeforeCheck(input) + input.starting, input.posting + input.pausing);
      assert BeforeCheck(input) + input.starting + (input.posting + input.pausing) == Everything(input);
      var checkedAt := clock;
      Await(input.starting);
      PostAndRecord(k, row, checkedAt, input);
      assert View() == AtEnd(w, input);
      if input.failure.Recording? {
        RollBack();
        took := Threw;
      } else {
        Commit();
        took := Took.Took;
      }
    }

    /** One reporting turn: where it posts and is not rolled back, its row holds what the tracker answered. */
    method ReportOnce(input: ReportInput) returns (took: Took)
      requires Idle()
      modifies this
      ensures Idle() && Turn(Committed(), took) == ReportTurn(old(Committed()), input)
      ensures old(Inv(Committed())) && Posts(old(Committed()), input) && !input.failure.Recording?
              ==> took.Took? && HoldsTheAnswer(old(Committed()), Committed(), input)
    {
      ghost var w := Committed();
      if Inv(w) && Posts(w, input) && !input.failure.Recording? { TheAnswerDecides(w, input); }
      var taken := SettleAndTake(input);
      if taken.None? && input.failure.Nowhere? {
        Commit();
        return Took.Idle;
      }
      MeanwhileSplits(w, input.settling + input.selecting + input.locking, input.checking);
      var view := View();
      Await(input.checking);
      if input.failure.Early? || taken.None? {
        RollBack();
        return Threw;
      }
      var k, row := taken.value, view.rows[taken.value];
      if row.click.None? || row.eventAt.None? {
        RollBack();
        return Threw;
      }
      if clock < LastTry(row.eventAt.value, row.createdAt) {
        took := PostInTime(w, k, row, input);
      } else if input.failure.Recording? {
        RollBack();
        took := Threw;
      } else {
        WriteRow(k, GiveUp(row, clock));
        Commit();
        took := Took.Took;
      }
    }

    /** One turn while reporting is switched off. */
    method ExpireOnce(input: ExpireInput)
      requires Idle()
      modifies this
      ensures Idle() && Committed() == ExpireTurn(old(Committed()), input).world
    {
      ghost var w := Committed();
      assert View() == w by { assert rows + map[] == rows; }
      MeanwhileSplits(w, input.giving, input.between);
      MeanwhileSplits(w, input.giving + input.between, input.settling);
      var at := clock;
      Await(input.giving);
      GiveUpLate(at);
      Await(input.between);
      at := clock;
      Await(input.settling);
      SettleWaiting(at, false, input.skips);
      if input.fails { RollBack(); } else { Commit(); }
    }

    /** Any step of any process, or of the rest of the database. */
    method Take(step: Step) returns (took: bool)
      requires Idle()
      modifies this
      ensures Idle() && Committed() == After(old(Committed()), step)
      ensures took == Takes(old(Committed()), step)
    {
      took := false;
      match step
      case Between(change) =>
        Await([change]);
        assert Meanwhile(old(Committed()), [change]) == Changed(old(Committed()), change);
      case Delete(a) =>
        if a in merchantOf && merchantOf[a].None? {
          rows := rows - {Key(a, Reg), Key(a, StoreConnected)};
          merchantOf := merchantOf - {a};
        }
      case Report(input) =>
        var answer := ReportOnce(input);
        took := answer.Took?;
      case Expire(input) =>
        ExpireOnce(input);
    }

    method OneStep(step: Step, busy: nat, ghost w: World, ghost trail: seq<Step>) returns (more: nat)
      requires Idle() && RunsTo(w, Committed(), trail, busy)
      modifies this
      ensures Idle() && RunsTo(w, Committed(), trail + [step], more)
    {
      RunOn(w, trail, step);
      var took := Take(step);
      more := busy + if took then 1 else 0;
    }

    /**
     * The loops of every process, in whatever order the lock lets their turns run. Each goes straight on
     * after a turn that took a report and pauses after any other, so what bounds the turns that took one
     * bounds how long any loop goes on without a pause.
     */
    method Loops(steps: seq<Step>) returns (busy: nat)
      requires Idle() && Inv(Committed())
      modifies this
      ensures Idle() && Inv(Committed()) && Committed() == Run(old(Committed()), steps)
      ensures busy == TurnsTaken(old(Committed()), steps)
      ensures busy <= 10 * |old(rows)| + 19 * AllRegistrations(steps)
    {
      ghost var w := Committed();
      busy := 0;
      RunBegins(w);
      var i := 0;
      while i < |steps|
        invariant 0 <= i <= |steps| && Idle()
        invariant RunsTo(w, Committed(), steps[..i], busy)
      {
        OneLonger(steps, i);
        busy := OneStep(steps[i], busy, w, steps[..i]);
        i := i + 1;
      }
      assert steps[..i] == steps;
      RunComesToRest(w, Committed(), steps, busy);
    }

    /** One round: what others do before the turn, the turn, and the pause after it where there is one. */
    method OnePass(pass: Pass) returns (took: bool, idles: bool)
      requires Idle() && Inv(Committed())
      modifies this
      ensures Idle() && Inv(Committed()) && Committed() == Run(old(Committed()), StepsOf(pass, idles))
      ensures took == Takes(Run(old(Committed()), pass.before), pass.turn)
      ensures idles <==> !took && !pass.stopsInTurn
    {
      ghost var w := Committed();
      var _ := Loops(pass.before);
      StepKeeps(Committed(), pass.turn);
      took := Take(pass.turn);
      idles := !took && !pass.stopsInTurn;
      PassRuns(w, pass, idles);
      if idles { var _ := Loops(pass.idling); }
    }

    /** The loop goes on by one round. */
    method OneMore(passes: seq<Pass>, tooks: seq<bool>, idled: seq<bool>, ghost w: World) returns (took: bool, idles: bool)
      requires |idled| < |passes| && Idle() && LoopsTo(w, Committed(), passes, tooks, idled) && !Stopped(passes, idled)
      modifies this
      ensures Idle() && LoopsTo(w, Committed(), passes, tooks + [took], idled + [idles])
    {
      took, idles := OnePass(passes[|idled|]);
      TellsOn(w, passes, tooks, idled, took, idles);
      PacedOn(passes, tooks, idled, took, idles);
      CountsOn(w, passes, tooks, idled, took, idles);
      TrailOn(w, passes, idled, idles);
    }

    /**
     * One process's loop, among the steps of all the others: it goes on until it is stopped, its pauses are
     * those of `Paced`, every invariant is kept, and the turns after which it does not pause are bounded.
     */
    method Process(passes: seq<Pass>) returns (tooks: seq<bool>, idled: seq<bool>)
      requires Idle() && Inv(Committed())
      modifies this
      ensures Idle() && Inv(Committed()) && Tells(old(Committed()), passes, tooks, idled) && Paced(passes, tooks, idled)
      ensures Committed() == Run(old(Committed()), Trail(passes, idled))
      ensures |idled| < |passes| ==> Stopped(passes, idled)
      ensures Count(tooks) <= 10 * |old(rows)| + 19 * AllRegistrations(Trail(passes, idled))
    {
      ghost var w := Committed();
      var running := true;
      tooks, idled := [], [];
      LoopBegins(w, passes);
      while running && |idled| < |passes|
        invariant Idle() && |idled| <= |passes| && LoopsTo(w, Committed(), passes, tooks, idled)
        invariant running <==> !Stopped(passes, idled)
        decreases |passes| - |idled|
      {
        var took, idles := OneMore(passes, tooks, idled, w);
        running := !Stops(passes[|idled|], idles);
        StoppedOn(passes, idled, idles);
        tooks, idled := tooks + [took], idled + [idles];
      }
      LoopComesToRest(w, Committed(), passes, tooks, idled);
    }
  }
}
