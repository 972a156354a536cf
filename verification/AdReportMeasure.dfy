/** Why the loop comes to rest: every turn that takes a report brings its end nearer. */
module AdReportMeasure {
  import opened Options
  import opened AdReportModel
  import opened AdReportSettling
  import opened AdReportTurns
  import opened AdReportInvariants
  import opened AdReportRuns
  import opened AdReportTheorems

  /** How many more turns a row can take, at most. */
  function Weight(row: Row): nat {
    match row.state
    case Waiting => 10
    case Pending => if row.attempts <= 9 then 9 - row.attempts else 0
    case _ => 0
  }

  ghost function Measure(rows: map<Key, Row>): nat {
    if rows == map[] then 0
    else
      var k :| k in rows;
      Weight(rows[k]) + Measure(rows - {k})
  }

  lemma {:induction false} MeasureTakesOut(rows: map<Key, Row>, k: Key)
    requires k in rows
    ensures Measure(rows) == Weight(rows[k]) + Measure(rows - {k})
  {
    var first :| first in rows && Measure(rows) == Weight(rows[first]) + Measure(rows - {first});
    if first != k {
      MeasureTakesOut(rows - {first}, k);
      MeasureTakesOut(rows - {k}, first);
      assert rows - {first} - {k} == rows - {k} - {first};
    }
  }

  lemma {:induction false} MeasureFalls(v: map<Key, Row>, w: map<Key, Row>)
    requires v.Keys == w.Keys
    requires forall k | k in v :: Weight(w[k]) <= Weight(v[k])
    ensures Measure(w) <= Measure(v)
    ensures forall k | k in v && Weight(w[k]) < Weight(v[k]) :: Measure(w) < Measure(v)
  {
    if v != map[] {
      var k :| k in v;
      MeasureTakesOut(v, k);
      MeasureTakesOut(w, k);
      MeasureFalls(v - {k}, w - {k});
      forall j | j in v && Weight(w[j]) < Weight(v[j]) ensures Measure(w) < Measure(v) {
        if j != k { assert j in v - {k}; }
      }
    } else {
      assert w == map[];
    }
  }

  lemma {:induction false} MeasureIsBounded(rows: map<Key, Row>)
    ensures Measure(rows) <= 10 * |rows|
  {
    if rows != map[] {
      var k :| k in rows;
      MeasureTakesOut(rows, k);
      MeasureIsBounded(rows - {k});
      assert rows.Keys == (rows - {k}).Keys + {k};
    }
  }

  // ---- What others do to the measure: only a registration adds to it ----

  function Registrations(changes: seq<Change>): nat {
    if changes == [] then 0
    else (if changes[0].Register? then 1 else 0) + Registrations(changes[1..])
  }

  lemma {:induction false} RegistrationsSplit(one: seq<Change>, other: seq<Change>)
    ensures Registrations(one + other) == Registrations(one) + Registrations(other)
  {
    if one == [] {
      assert one + other == other;
    } else {
      assert (one + other)[1..] == one[1..] + other;
      RegistrationsSplit(one[1..], other);
    }
  }

  lemma RegisteringAdds(rows: map<Key, Row>, a: Account, click: string, at: int)
    requires Key(a, Reg) !in rows && Key(a, StoreConnected) !in rows
    ensures Measure(rows + Registered(a, click, at)) == Measure(rows) + 19
  {
    var v := rows + Registered(a, click, at);
    MeasureTakesOut(v, Key(a, Reg));
    MeasureTakesOut(v - {Key(a, Reg)}, Key(a, StoreConnected));
    assert v - {Key(a, Reg)} - {Key(a, StoreConnected)} == rows;
  }

  lemma {:induction false} MeanwhileAdds(w: World, changes: seq<Change>)
    ensures Measure(Meanwhile(w, changes).rows) <= Measure(w.rows) + 19 * Registrations(changes)
    decreases |changes|
  {
    if changes != [] {
      var c := changes[0];
      if c.Register? && Applies(w, c) { RegisteringAdds(w.rows, c.account, c.click, w.clock); }
      MeanwhileAdds(Changed(w, c), changes[1..]);
    }
  }

  lemma SettlingFalls(w: World, at: int, promote: bool, skips: set<Account>)
    requires RowsInv(w)
    ensures Measure(Settled(w, at, promote, skips).rows) <= Measure(w.rows)
  {
    var v := Settled(w, at, promote, skips);
    forall k | k in w.rows ensures Weight(v.rows[k]) <= Weight(w.rows[k]) {
      assert RowOk(k, w.rows[k], w.clock);
    }
    MeasureFalls(w.rows, v.rows);
  }

  /** A pending row that is moved on weighs less. */
  lemma MovingFalls(w: World, k: Key, row: Row)
    requires k in w.rows && MovesOn(k, w.rows[k], row, w.clock) && w.rows[k].attempts <= 7
    requires row.state.Pending? ==> row.attempts == w.rows[k].attempts + 1
    ensures Measure(WithRow(w, k, row).rows) < Measure(w.rows)
  {
    var v := WithRow(w, k, row);
    MeasureFalls(w.rows, v.rows);
    assert Weight(v.rows[k]) < Weight(w.rows[k]);
  }

  // ---- Turns ----

  /** Up to the check nothing but registrations adds to the measure. */
  lemma StagesAddNothing(w: World, input: ReportInput)
    requires Inv(w)
    ensures Measure(AtLock(w, input).rows) <= Measure(w.rows) + 19 * Registrations(BeforeCheck(input))
    ensures Measure(AtCheck(w, input).rows) <= Measure(w.rows) + 19 * Registrations(BeforeCheck(input))
    ensures Measure(AtStart(w, input).rows) <= Measure(w.rows) + 19 * Registrations(BeforeCheck(input) + input.starting)
  {
    var read := Meanwhile(w, input.settling);
    MeanwhileKeeps(w, input.settling);
    MeanwhileAdds(w, input.settling);
    SettlingFalls(read, w.clock, true, input.settleSkips);
    MeanwhileAdds(Settled(read, w.clock, true, input.settleSkips), input.selecting);
    MeanwhileAdds(AtSelect(w, input), input.locking);
    MeanwhileAdds(AtLock(w, input), input.checking);
    MeanwhileAdds(AtCheck(w, input), input.starting);
    RegistrationsSplit(input.settling, input.selecting);
    RegistrationsSplit(input.settling + input.selecting, input.locking);
    RegistrationsSplit(input.settling + input.selecting + input.locking, input.checking);
    RegistrationsSplit(BeforeCheck(input), input.starting);
  }

  /** Recording any answer, or giving up, takes one of the row's tries. */
  lemma AnswerFalls(w: World, k: Key, answer: Answer)
    requires RowsInv(w) && k in w.rows && w.rows[k].state.Pending? && w.rows[k].nextAttemptAt.value <= w.clock
    ensures Measure(WithRow(w, k, AfterAnswer(w.rows[k], answer, w.clock)).rows) < Measure(w.rows)
    ensures Measure(WithRow(w, k, GiveUp(w.rows[k], w.clock)).rows) < Measure(w.rows)
  {
    assert RowOk(k, w.rows[k], w.clock);
    EightWaitsOutlastADay(w.rows[k].attempts);
    AnswerMovesOn(w, k, w.rows[k], answer);
    MovingFalls(w, k, AfterAnswer(w.rows[k], answer, w.clock));
    MovingFalls(w, k, GiveUp(w.rows[k], w.clock));
  }

  lemma AnsweredStands(w: World, input: ReportInput)
    requires Inv(w) && Posts(w, input)
    ensures RowsInv(AtAnswer(w, input)) && Found(w, input) in AtAnswer(w, input).rows
    ensures var row := AtAnswer(w, input).rows[Found(w, input)];
            row == FoundRow(w, input) && row.state.Pending? && row.nextAttemptAt.Some?
            && row.nextAttemptAt.value <= AtAnswer(w, input).clock
  {
    PostedKeeps(w, input);
    PostingKeeps(w, input);
    PostIsOk(w, input);
    UpToStart(w, input);
    assert IsDue(AtLock(w, input), SelectAt(w, input), input.dueSkips, Found(w, input));
  }

  lemma RecordingFalls(w: World, input: ReportInput)
    requires Inv(w) && Posts(w, input)
    ensures Measure(AtEnd(w, input).rows) < Measure(w.rows) + 19 * Registrations(Everything(input))
  {
    var answered, key := AtAnswer(w, input), Found(w, input);
    var recorded := WithRow(answered, key, AfterAnswer(FoundRow(w, input), input.answer, answered.clock));
    StagesAddNothing(w, input);
    MeanwhileAdds(Posted(w, input), input.posting);
    AnsweredStands(w, input);
    AnswerFalls(answered, key, input.answer);
    MeanwhileAdds(recorded, input.pausing);
    RegistrationsSplit(BeforeCheck(input) + input.starting, input.posting);
    RegistrationsSplit(BeforeCheck(input) + input.starting + input.posting, input.pausing);
  }

  lemma CheckedStands(w: World, input: ReportInput)
    requires Inv(w) && Finds(w, input)
    ensures RowsInv(AtCheck(w, input)) && Found(w, input) in AtCheck(w, input).rows
    ensures var row := AtCheck(w, input).rows[Found(w, input)];
            row == FoundRow(w, input) && row.state.Pending? && row.nextAttemptAt.Some?
            && row.nextAttemptAt.value <= AtCheck(w, input).clock
  {
    UpToStart(w, input);
    assert IsDue(AtLock(w, input), SelectAt(w, input), input.dueSkips, Found(w, input));
  }

  lemma LateFalls(w: World, input: ReportInput)
    requires Inv(w) && Finds(w, input)
    ensures Measure(WithRow(AtCheck(w, input), Found(w, input), GiveUp(FoundRow(w, input), AtCheck(w, input).clock)).rows)
          < Measure(w.rows) + 19 * Registrations(BeforeCheck(input))
  {
    StagesAddNothing(w, input);
    CheckedStands(w, input);
    AnswerFalls(AtCheck(w, input), Found(w, input), input.answer);
  }

  /** A turn that takes a report lowers the measure; no turn raises it, registrations aside. */
  lemma ReportTurnFalls(w: World, input: ReportInput)
    requires Inv(w)
    ensures var turn := ReportTurn(w, input);
            Measure(turn.world.rows) + (if turn.took.Took? then 1 else 0)
              <= Measure(w.rows) + 19 * Registrations(Everything(input))
  {
    EverythingRegisters(input);
    MeanwhileAdds(w, Everything(input));
    MeanwhileAdds(w, BeforeCheck(input));
    StagesAddNothing(w, input);
    if Posts(w, input) {
      RecordingFalls(w, input);
    } else if Finds(w, input) {
      LateFalls(w, input);
    }
  }

  lemma EverythingRegisters(input: ReportInput)
    ensures Registrations(BeforeCheck(input)) <= Registrations(Everything(input))
  {
    RegistrationsSplit(BeforeCheck(input), input.starting);
    RegistrationsSplit(BeforeCheck(input) + input.starting, input.posting);
    RegistrationsSplit(BeforeCheck(input) + input.starting + input.posting, input.pausing);
  }

  lemma ExpireTurnFalls(w: World, input: ExpireInput)
    requires Inv(w)
    ensures Measure(ExpireTurn(w, input).world.rows)
              <= Measure(w.rows) + 19 * Registrations(input.giving + input.between + input.settling)
  {
    var read, given, before := Meanwhile(w, input.giving), AfterGivingUp(w, input), BeforeSettling(w, input);
    RegistrationsSplit(input.giving, input.between);
    RegistrationsSplit(input.giving + input.between, input.settling);
    MeanwhileAdds(w, input.giving + input.between + input.settling);
    MeanwhileAdds(w, input.giving);
    MeasureFalls(read.rows, given.rows);
    MeanwhileAdds(given, input.between);
    MeanwhileAdds(before, input.settling);
    ExpireReads(w, input);
    MeanwhileKeeps(before, input.settling);
    SettlingFalls(Meanwhile(before, input.settling), before.clock, false, input.skips);
  }

  // ---- Runs ----

  function RegistrationsOf(step: Step): nat {
    match step
    case Between(c) => Registrations([c])
    case Delete(_) => 0
    case Report(input) => Registrations(Everything(input))
    case Expire(input) => Registrations(input.giving + input.between + input.settling)
  }

  function AllRegistrations(steps: seq<Step>): nat {
    if steps == [] then 0
    else AllRegistrations(steps[..|steps| - 1]) + RegistrationsOf(steps[|steps| - 1])
  }

  /** How many turns of a run took a report, so that their loop went on without a pause. */
  ghost function TurnsTaken(w: World, steps: seq<Step>): nat {
    if steps == [] then 0
    else
      var last := steps[|steps| - 1];
      TurnsTaken(w, steps[..|steps| - 1])
      + (if last.Report? && ReportTurn(Run(w, steps[..|steps| - 1]), last.input).took.Took? then 1 else 0)
  }

  lemma DeletingFalls(w: World, a: Account)
    ensures Measure(Deleted(w, a).rows) <= Measure(w.rows)
  {
    if Key(a, Reg) in w.rows { MeasureTakesOut(w.rows, Key(a, Reg)); }
    var v := w.rows - {Key(a, Reg)};
    assert Key(a, Reg) !in w.rows ==> v == w.rows;
    if Key(a, StoreConnected) in v { MeasureTakesOut(v, Key(a, StoreConnected)); }
    assert Key(a, StoreConnected) !in v ==> v - {Key(a, StoreConnected)} == v;
    assert w.rows - {Key(a, Reg), Key(a, StoreConnected)} == v - {Key(a, StoreConnected)};
  }

  lemma StepFalls(w: World, step: Step)
    requires Inv(w)
    ensures Measure(After(w, step).rows) + (if step.Report? && ReportTurn(w, step.input).took.Took? then 1 else 0)
              <= Measure(w.rows) + 19 * RegistrationsOf(step)
  {
    match step
    case Between(c) => assert Meanwhile(w, [c]) == Changed(w, c); MeanwhileAdds(w, [c]);
    case Delete(a) => DeletingFalls(w, a);
    case Report(input) => ReportTurnFalls(w, input);
    case Expire(input) => ExpireTurnFalls(w, input);
  }

  /**
   * From any state, however many turns run, those that take a report number at most ten for each row
   * there and nineteen for each registration that comes; so with none coming the loop comes to rest.
   */
  lemma {:induction false} TheLoopComesToRest(w: World, steps: seq<Step>)
    requires Inv(w)
    ensures TurnsTaken(w, steps) + Measure(Run(w, steps).rows) <= Measure(w.rows) + 19 * AllRegistrations(steps)
    ensures TurnsTaken(w, steps) <= 10 * |w.rows| + 19 * AllRegistrations(steps)
  {
    MeasureIsBounded(w.rows);
    if steps != [] {
      var shorter := steps[..|steps| - 1];
      TheLoopComesToRest(w, shorter);
      RunKeeps(w, shorter);
      StepFalls(Run(w, shorter), steps[|steps| - 1]);
    }
  }
}
