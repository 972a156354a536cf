/** The address translation table, the commands that edit it one at a time, and the runs made of them. */
module HairpinTable {
  import opened Options
  import opened Hairpin
  import opened HairpinPackets

  /** How one command goes: as asked, not at all, or as asked with its success never reported. */
  datatype Luck = Goes | Fails | GoesUnheard

  datatype Report = Reconciled | Verified | Removed | AlreadyAbsent | Refused

  function First(luck: seq<Luck>): Luck {
    if luck == [] then Goes else luck[0]
  }

  function Rest(luck: seq<Luck>): seq<Luck> {
    if luck == [] then [] else luck[1..]
  }

  /** The networks as the host shows them, where every check of the host, its networks and its names passes. */
  ghost predicate Facts(facts: Option<seq<string>>, settings: Settings) {
    facts.Some? ==> |facts.value| == 2 && facts.value[0] != facts.value[1]
                    && forall subnet | subnet in facts.value :: settings.isPrivate(subnet)
  }

  class NatTable {
    const settings: Settings
    var chain: Option<seq<Tokens>>
    var prerouting: seq<Tokens>
    /** Whether a chain other than PREROUTING sends packets to the chain. */
    var elsewhere: bool
    /** How the commands to come go; those beyond it go as asked. */
    var luck: seq<Luck>

    /** The kernel keeps a chain that is referred to. */
    predicate Valid()
      reads this
    {
      elsewhere || (exists rule | rule in prerouting :: Refers(rule)) ==> chain.Some?
    }

    ghost predicate Accepts()
      reads this
    {
      Accepted(chain, prerouting, settings)
    }

    constructor (settings: Settings, chain: Option<seq<Tokens>>, prerouting: seq<Tokens>, elsewhere: bool, luck: seq<Luck>)
      requires elsewhere || (exists rule | rule in prerouting :: Refers(rule)) ==> chain.Some?
      ensures Valid()
      ensures this.settings == settings && this.chain == chain && this.prerouting == prerouting
      ensures this.elsewhere == elsewhere && this.luck == luck
    {
      this.settings, this.chain, this.prerouting, this.elsewhere, this.luck := settings, chain, prerouting, elsewhere, luck;
    }

    // ---- Commands ----

    method Draw() returns (how: Luck)
      modifies this`luck
      ensures how == First(old(luck)) && luck == Rest(old(luck))
    {
      how := First(luck);
      luck := Rest(luck);
    }

    /** -S of the chain. */
    method ListChain() returns (lines: Option<seq<Tokens>>)
      modifies this`luck
      ensures luck == Rest(old(luck))
      ensures lines == if chain.Some? && First(old(luck)).Goes? then Some(ChainLines(chain.value)) else None
    {
      var how := Draw();
      lines := if chain.Some? && how.Goes? then Some(ChainLines(chain.value)) else None;
    }

    /** -S of PREROUTING. */
    method ListPrerouting() returns (lines: Option<seq<Tokens>>)
      modifies this`luck
      ensures luck == Rest(old(luck))
      ensures lines == if First(old(luck)).Goes? then Some(PreroutingLines(prerouting)) else None
    {
      var how := Draw();
      lines := if how.Goes? then Some(PreroutingLines(prerouting)) else None;
    }

    /** -N. */
    method NewChain() returns (ok: bool)
      requires Valid()
      modifies this`luck, this`chain
      ensures Valid() && luck == Rest(old(luck))
      ensures chain == if old(chain).None? && !First(old(luck)).Fails? then Some([]) else old(chain)
      ensures ok == (old(chain).None? && First(old(luck)).Goes?)
    {
      var how := Draw();
      ok := chain.None? && how.Goes?;
      if chain.None? && !how.Fails? { chain := Some([]); }
    }

    /** -C of the jump. */
    method CheckJump() returns (there: bool)
      modifies this`luck
      ensures luck == Rest(old(luck))
      ensures there == (JUMP in prerouting && First(old(luck)).Goes?)
    {
      var how := Draw();
      there := JUMP in prerouting && how.Goes?;
    }

    /** -D of the jump: the first that is there. */
    method DeleteJump() returns (ok: bool)
      requires Valid()
      modifies this`luck, this`prerouting
      ensures Valid() && luck == Rest(old(luck))
      ensures prerouting == if JUMP in old(prerouting) && !First(old(luck)).Fails? then LessOne(old(prerouting)) else old(prerouting)
      ensures ok == (JUMP in old(prerouting) && First(old(luck)).Goes?)
    {
      var how := Draw();
      ok := JUMP in prerouting && how.Goes?;
      if JUMP in prerouting && !how.Fails? { prerouting := LessOne(prerouting); }
    }

    /** -F of the chain. */
    method FlushChain() returns (ok: bool)
      requires Valid()
      modifies this`luck, this`chain
      ensures Valid() && luck == Rest(old(luck))
      ensures chain == if old(chain).Some? && !First(old(luck)).Fails? then Some([]) else old(chain)
      ensures ok == (old(chain).Some? && First(old(luck)).Goes?)
    {
      var how := Draw();
      ok := chain.Some? && how.Goes?;
      if chain.Some? && !how.Fails? { chain := Some([]); }
    }

    /** -A of a rule to the chain. */
    method AppendRule(rule: Tokens) returns (ok: bool)
      requires Valid()
      modifies this`luck, this`chain
      ensures Valid() && luck == Rest(old(luck))
      ensures chain == if old(chain).Some? && !First(old(luck)).Fails? then Some(old(chain).value + [rule]) else old(chain)
      ensures ok == (old(chain).Some? && First(old(luck)).Goes?)
    {
      var how := Draw();
      ok := chain.Some? && how.Goes?;
      if chain.Some? && !how.Fails? { chain := Some(chain.value + [rule]); }
    }

    /** -I of the jump, as the first rule. */
    method InsertJump() returns (ok: bool)
      requires Valid()
      modifies this`luck, this`prerouting
      ensures Valid() && luck == Rest(old(luck))
      ensures prerouting == if chain.Some? && !First(old(luck)).Fails? then [JUMP] + old(prerouting) else old(prerouting)
      ensures ok == (chain.Some? && First(old(luck)).Goes?)
    {
      var how := Draw();
      ok := chain.Some? && how.Goes?;
      if chain.Some? && !how.Fails? { prerouting := [JUMP] + prerouting; }
    }

    /** -X: only a chain that is empty and referred to by nothing goes. */
    method DeleteChain() returns (ok: bool)
      requires Valid()
      modifies this`luck, this`chain
      ensures Valid() && luck == Rest(old(luck))
      ensures var can := old(chain) == Some([]) && !elsewhere && forall rule | rule in prerouting :: !Refers(rule);
              && chain == (if can && !First(old(luck)).Fails? then None else old(chain))
              && ok == (can && First(old(luck)).Goes?)
    {
      var how := Draw();
      var can := chain == Some([]) && !elsewhere && forall rule | rule in prerouting :: !Refers(rule);
      ok := can && how.Goes?;
      if can && !how.Fails? { chain := None; }
    }

    // ---- What the runs are made of ----

    /** Both listings, refused where they are not what the tool may touch; a chain that does not list reads as absent. */
    method ExistingRules() returns (ok: bool, lines: Option<seq<Tokens>>, jumps: seq<Tokens>)
      modifies this`luck
      ensures luck == Rest(Rest(old(luck)))
      ensures lines == if chain.Some? && First(old(luck)).Goes? then Some(ChainLines(chain.value)) else None
      ensures ok ==> jumps == PreroutingLines(prerouting)
      ensures ok <==> First(Rest(old(luck))).Goes? && Accepted(if First(old(luck)).Goes? then chain else None, prerouting, settings)
    {
      lines := ListChain();
      var listed := ListPrerouting();
      jumps := [];
      ValidatesTheAccepted(if First(old(luck)).Goes? then chain else None, prerouting, settings);
      if listed.None? { return false, lines, jumps; }
      jumps := listed.value;
      ok := ValidateExisting(if lines.Some? then lines.value else [], jumps, settings);
    }

    /** Ends with no jump left, unless a command failed; the rules of others stay as they are in any case. */
    method DeleteOwnedJumps() returns (ok: bool)
      requires Valid()
      modifies this`luck, this`prerouting
      ensures Valid()
      ensures Unowned(prerouting) == Unowned(old(prerouting))
      ensures forall rule | rule in prerouting :: rule in old(prerouting)
      ensures old(luck) == [] ==> luck == [] && ok && JUMP !in prerouting
    {
      var there := CheckJump();
      while there
        invariant Valid()
        invariant there ==> JUMP in prerouting
        invariant Unowned(prerouting) == Unowned(old(prerouting))
        invariant forall rule | rule in prerouting :: rule in old(prerouting)
        invariant old(luck) == [] ==> luck == [] && there == (JUMP in prerouting)
        decreases |prerouting|
      {
        ok := DeleteJump();
        if !ok { return; }
        there := CheckJump();
      }
      ok := true;
    }

    method AppendRules(subnets: seq<string>) returns (ok: bool)
      requires Valid() && chain == Some([])
      requires forall subnet | subnet in subnets :: settings.isPrivate(subnet)
      modifies this`luck, this`chain
      ensures Valid() && chain.Some? && OwnedChain(chain.value, settings)
      ensures ok ==> chain == Some(RulesOf(subnets, settings))
      ensures old(luck) == [] ==> luck == [] && ok
    {
      assert RulesOf(subnets[..0], settings) == [];
      for i := 0 to |subnets|
        invariant Valid() && chain == Some(RulesOf(subnets[..i], settings))
        invariant old(luck) == [] ==> luck == []
      {
        assert RulesOf(subnets[..i + 1], settings) == RulesOf(subnets[..i], settings) + [ChainRule(subnets[i], settings)];
        AssignedAreOwned(subnets[..i + 1], settings);
        AssignedAreOwned(subnets[..i], settings);
        ok := AppendRule(ChainRule(subnets[i], settings));
        if !ok { return; }
      }
      assert subnets[..|subnets|] == subnets;
      AssignedAreOwned(subnets, settings);
      ok := true;
    }

    // ---- The three runs ----

    /** Verified exactly where the state is the assigned one, every host check passes and both listings are had. */
    method Verify(facts: Option<seq<string>>) returns (report: Report)
      requires Facts(facts, settings)
      modifies this`luck
      ensures report in {Verified, Refused}
      ensures report.Verified? <==>
                && facts.Some? && First(old(luck)).Goes? && First(Rest(old(luck))).Goes?
                && Accepts() && chain == Some(RulesOf(facts.value, settings)) && Count(prerouting) == 1
      ensures old(luck) == [] ==> luck == []
    {
      if facts.None? { return Refused; }
      var ok, lines, jumps := ExistingRules();
      if !ok || lines.None? { return Refused; }
      VerifiesTheAssigned(chain.value, prerouting, facts.value, settings);
      report := if VerifiesExactly(lines.value, jumps, facts.value, settings) then Verified else Refused;
    }

    /** The last two steps: one jump ahead of all rules, and the state read once more. */
    method JumpAndVerify(later: Option<seq<string>>) returns (report: Report)
      requires Valid() && Facts(later, settings)
      modifies this`luck, this`prerouting
      ensures Valid() && report in {Reconciled, Refused}
      ensures Unowned(prerouting) == Unowned(old(prerouting))
      ensures OwnedJumps(old(prerouting)) ==> OwnedJumps(prerouting)
      ensures report.Reconciled? ==> later.Some? && chain == Some(RulesOf(later.value, settings)) && prerouting == Jumping(old(prerouting))
      ensures old(luck) == [] && Accepts() && later.Some? && chain == Some(RulesOf(later.value, settings)) && JUMP !in old(prerouting)
              ==> report.Reconciled? && luck == []
    {
      ghost var before := prerouting;
      Prepended(JUMP, before);
      NoneCounted(before);
      var ok := InsertJump();
      if !ok { return Refused; }
      report := Verify(later);
      if report.Verified? {
        OneJumpFirst(before);
        report := Reconciled;
      }
    }

    /**
     * Wherever the run stops, the rules of others stand as before, and what was the tool's to touch still
     * is; what was not is as it was. A run that reports success has left the assigned rules and one jump,
     * ahead of every other rule; with no command failing it does succeed.
     */
    method Reconcile(facts: Option<seq<string>>, later: Option<seq<string>>) returns (report: Report)
      requires Valid() && Facts(facts, settings) && Facts(later, settings)
      modifies this`luck, this`chain, this`prerouting
      ensures Valid() && report in {Reconciled, Refused}
      ensures Unowned(prerouting) == Unowned(old(prerouting))
      ensures old(Accepts()) ==> Accepts()
      ensures !old(Accepts()) || facts.None? ==> report.Refused? && chain == old(chain) && prerouting == old(prerouting)
      ensures report.Reconciled? ==> later.Some? && chain == Some(RulesOf(later.value, settings)) && prerouting == Jumping(old(prerouting))
      ensures report.Reconciled? ==> Serves(later.value, settings, chain, prerouting, old(prerouting))
      ensures old(Accepts()) && old(luck) == [] && facts.Some? && later == facts ==> report.Reconciled? && luck == []
    {
      if facts.None? { return Refused; }
      var ok, lines, _ := ExistingRules();
      if !ok { return Refused; }
      if lines.None? {
        ok := NewChain();
        if !ok { return Refused; }
      }
      assert old(Accepts());
      ok := DeleteOwnedJumps();
      if !ok { return Refused; }
      ok := FlushChain();
      if !ok { return Refused; }
      ok := AppendRules(facts.value);
      if !ok { return Refused; }
      report := JumpAndVerify(later);
      if report.Reconciled? { AssignedServes(later.value, settings, old(prerouting)); }
    }

    /**
     * Wherever the run stops, the rules of others stand as before. Where it reports the removal, no chain
     * and no jump is left; it reports the chain absent also where the chain merely did not list.
     */
    method Remove(facts: Option<seq<string>>) returns (report: Report)
      requires Valid() && Facts(facts, settings)
      modifies this`luck, this`chain, this`prerouting
      ensures Valid() && report in {Removed, AlreadyAbsent, Refused}
      ensures Unowned(prerouting) == Unowned(old(prerouting))
      ensures old(Accepts()) ==> Accepts()
      ensures !old(Accepts()) || facts.None? ==> chain == old(chain) && prerouting == old(prerouting)
      ensures report.Removed? ==> chain.None? && JUMP !in prerouting && prerouting == Unowned(old(prerouting))
      ensures report.Removed? ==> LeavesAlone(chain, prerouting, old(prerouting))
      ensures report.AlreadyAbsent? ==> chain == old(chain) && prerouting == old(prerouting)
      ensures report.AlreadyAbsent? <==>
                && facts.Some? && First(Rest(old(luck))).Goes? && OwnedJumps(old(prerouting))
                && (old(chain).None? || !First(old(luck)).Goes?)
      ensures old(Accepts()) && old(luck) == [] && facts.Some? && !elsewhere
              ==> chain.None? && JUMP !in prerouting && report == if old(chain).Some? then Removed else AlreadyAbsent
    {
      if facts.None? { return Refused; }
      var ok, lines, _ := ExistingRules();
      if !ok { return Refused; }
      JumpRefers();
      if lines.None? { return AlreadyAbsent; }
      ok := DeleteOwnedJumps();
      NoneCounted(prerouting);
      if !ok { return Refused; }
      ok := FlushChain();
      if !ok { return Refused; }
      ok := DeleteChain();
      if !ok { return Refused; }
      var left := ListChain();
      report := if left.Some? then Refused else Removed;
      if report.Removed? { AbsentLeavesAlone(old(prerouting)); }
    }

    /** One run, its commands going as they may. */
    method Perform(run: Run)
      requires Valid() && Facts(run.facts, settings) && (run.Reconciling? ==> Facts(run.later, settings))
      modifies this`luck, this`chain, this`prerouting
      ensures Valid() && Unowned(prerouting) == Unowned(old(prerouting))
      ensures if old(Accepts()) then Accepts() else chain == old(chain) && prerouting == old(prerouting)
    {
      luck := run.luck;
      match run {
        case Reconciling(facts, later, _) =>
          var _ := Reconcile(facts, later);
        case Removing(facts, _) =>
          var _ := Remove(facts);
        case Verifying(facts, _) =>
          var _ := Verify(facts);
      }
    }

    /**
     * Whatever runs went before, each stopped at whatever command: where the table was the tool's to touch
     * at first, one reconciliation with no command failing brings the assigned rules, one jump ahead of the
     * rules of others, and those as they were; where it was not, nothing has been touched and nothing is.
     */
    method ReconcileAfter(runs: seq<Run>, facts: seq<string>) returns (report: Report)
      requires Valid() && Facts(Some(facts), settings)
      requires forall run | run in runs :: Facts(run.facts, settings) && (run.Reconciling? ==> Facts(run.later, settings))
      modifies this`luck, this`chain, this`prerouting
      ensures Valid() && report in {Reconciled, Refused}
      ensures report.Reconciled? <==> old(Accepts())
      ensures if report.Reconciled?
              then chain == Some(RulesOf(facts, settings)) && prerouting == Jumping(old(prerouting))
                   && Serves(facts, settings, chain, prerouting, old(prerouting))
              else chain == old(chain) && prerouting == old(prerouting)
    {
      for i := 0 to |runs|
        invariant Valid() && Unowned(prerouting) == Unowned(old(prerouting))
        invariant if old(Accepts()) then Accepts() else chain == old(chain) && prerouting == old(prerouting)
      {
        Perform(runs[i]);
      }
      luck := [];
      report := Reconcile(Some(facts), Some(facts));
      if report.Reconciled? { AssignedServes(facts, settings, old(prerouting)); }
    }
  }

  datatype Run =
    | Reconciling(facts: Option<seq<string>>, later: Option<seq<string>>, luck: seq<Luck>)
    | Removing(facts: Option<seq<string>>, luck: seq<Luck>)
    | Verifying(facts: Option<seq<string>>, luck: seq<Luck>)

  /** A chain in place is reported absent where its listing fails. */
  method AbsentThoughThere(settings: Settings, facts: seq<string>) returns (table: NatTable, report: Report)
    requires Facts(Some(facts), settings)
    ensures fresh(table) && report.AlreadyAbsent?
    ensures table.chain == Some(RulesOf(facts, settings)) && table.prerouting == [JUMP]
  {
    AssignedAreOwned(facts, settings);
    table := new NatTable(settings, Some(RulesOf(facts, settings)), [JUMP], false, [Fails]);
    report := table.Remove(Some(facts));
  }
}
