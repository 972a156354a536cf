/** The firewall rules that keep the test shop reachable: one chain of its own, and one jump to it. */
module Hairpin {
  import opened Options

  type Tokens = seq<string>

  const CHAIN := "AGENTIFY_TEST_WOO"
  const COMMENT := "agentify-test-woo-hairpin"
  const JUMP_COMMENT := "agentify-test-woo-hairpin-jump"
  const HTTPS_PORT := "443"

  /** The deployment's two addresses, and what it takes for one private IPv4 network. */
  datatype Settings = Settings(publicIp: string, ingressIp: string, isPrivate: string -> bool)

  // ---- Rules ----

  function ChainRule(subnet: string, settings: Settings): Tokens {
    ["-s", subnet, "-d", settings.publicIp + "/32", "-p", "tcp", "-m", "tcp", "--dport", HTTPS_PORT,
     "-m", "comment", "--comment", COMMENT, "-j", "DNAT", "--to-destination", settings.ingressIp + ":" + HTTPS_PORT]
  }

  const JUMP: Tokens := ["-m", "comment", "--comment", JUMP_COMMENT, "-j", CHAIN]

  function RulesOf(subnets: seq<string>, settings: Settings): seq<Tokens> {
    seq(|subnets|, i requires 0 <= i < |subnets| => ChainRule(subnets[i], settings))
  }

  /** Whether a rule sends packets to the chain. */
  predicate Refers(rule: Tokens) {
    exists i | 0 <= i < |rule| - 1 :: rule[i] in ["-j", "-g"] && rule[i + 1] == CHAIN
  }

  /** A rule refers to the chain wherever in it a jump or a going on names the chain. */
  lemma RefersAnywhere(before: Tokens, how: string, after: Tokens)
    requires how == "-j" || how == "-g"
    ensures Refers(before + [how, CHAIN] + after)
  {
    var rule := before + [how, CHAIN] + after;
    assert rule[|before|] == how && rule[|before| + 1] == CHAIN;
  }

  // ---- Listings, as the command prints them ----

  function ChainLines(rules: seq<Tokens>): seq<Tokens> {
    [["-N", CHAIN]] + Appended(CHAIN, rules)
  }

  function PreroutingLines(rules: seq<Tokens>): seq<Tokens> {
    [["-P", "PREROUTING", "ACCEPT"]] + Appended("PREROUTING", rules)
  }

  function Appended(chain: string, rules: seq<Tokens>): seq<Tokens> {
    seq(|rules|, i requires 0 <= i < |rules| => ["-A", chain] + rules[i])
  }

  // ---- What is taken for one's own ----

  predicate IsOwnedChainRule(tokens: Tokens, settings: Settings) {
    && |tokens| >= 4 && tokens[..3] == ["-A", CHAIN, "-s"]
    && settings.isPrivate(tokens[3])
    && tokens == ["-A", CHAIN] + ChainRule(tokens[3], settings)
  }

  predicate ValidateExisting(chainLines: seq<Tokens>, preroutingLines: seq<Tokens>, settings: Settings) {
    && (forall tokens | tokens in chainLines :: tokens == ["-N", CHAIN] || IsOwnedChainRule(tokens, settings))
    && (forall tokens | tokens in preroutingLines ::
          CHAIN in tokens || JUMP_COMMENT in tokens ==> tokens == ["-A", "PREROUTING"] + JUMP)
  }

  ghost predicate OwnedChain(rules: seq<Tokens>, settings: Settings) {
    forall rule | rule in rules :: exists subnet :: settings.isPrivate(subnet) && rule == ChainRule(subnet, settings)
  }

  predicate OwnedJumps(rules: seq<Tokens>) {
    forall rule | rule in rules && (CHAIN in rule || JUMP_COMMENT in rule) :: rule == JUMP
  }

  /** What the tool works on: its own chain holds only its own rules, and only its own jump mentions it. */
  ghost predicate Accepted(chain: Option<seq<Tokens>>, prerouting: seq<Tokens>, settings: Settings) {
    && (chain.Some? ==> OwnedChain(chain.value, settings))
    && OwnedJumps(prerouting)
  }

  /** The rules of others, in their order. */
  function Unowned(rules: seq<Tokens>): seq<Tokens> {
    if rules == [] then []
    else (if rules[0] == JUMP then [] else [rules[0]]) + Unowned(rules[1..])
  }

  function CountOf(lines: seq<Tokens>, line: Tokens): nat {
    if lines == [] then 0
    else (if lines[0] == line then 1 else 0) + CountOf(lines[1..], line)
  }

  function Count(rules: seq<Tokens>): nat {
    CountOf(rules, JUMP)
  }

  /** The rules less the first jump. */
  function LessOne(rules: seq<Tokens>): (less: seq<Tokens>)
    requires JUMP in rules
    ensures |less| == |rules| - 1 && Unowned(less) == Unowned(rules) && Count(less) == Count(rules) - 1
    ensures forall rule | rule in less :: rule in rules
  {
    if rules[0] == JUMP then rules[1..]
    else
      var less := [rules[0]] + LessOne(rules[1..]);
      assert less[1..] == LessOne(rules[1..]);
      less
  }

  lemma {:induction false} NoneCounted(rules: seq<Tokens>)
    ensures Count(rules) == 0 <==> JUMP !in rules
    ensures Count(rules) == 0 ==> Unowned(rules) == rules
  {
    if rules != [] { NoneCounted(rules[1..]); assert rules == [rules[0]] + rules[1..]; }
  }

  lemma AppendedOnes(chain: string, rules: seq<Tokens>)
    ensures forall rule :: rule in rules <==> ["-A", chain] + rule in Appended(chain, rules)
    ensures forall line | line in Appended(chain, rules) :: exists rule :: rule in rules && line == ["-A", chain] + rule
  {
    forall rule ensures rule in rules <==> ["-A", chain] + rule in Appended(chain, rules) {
      if rule in rules {
        var i :| 0 <= i < |rules| && rules[i] == rule;
        assert Appended(chain, rules)[i] == ["-A", chain] + rule;
      }
      if ["-A", chain] + rule in Appended(chain, rules) {
        var i :| 0 <= i < |rules| && Appended(chain, rules)[i] == ["-A", chain] + rule;
        assert rule == (["-A", chain] + rule)[2..] == (["-A", chain] + rules[i])[2..] == rules[i];
      }
    }
  }

  /** A chain listed or not, and the jumps: the check of a listing accepts exactly the accepted rules. */
  lemma ValidatesTheAccepted(chain: Option<seq<Tokens>>, prerouting: seq<Tokens>, settings: Settings)
    ensures ValidateExisting(if chain.Some? then ChainLines(chain.value) else [], PreroutingLines(prerouting), settings)
       <==> Accepted(chain, prerouting, settings)
  {
    if chain.Some? { ChainValidates(chain.value, settings); }
    JumpsValidate(prerouting);
  }

  lemma OwnedLine(rule: Tokens, settings: Settings)
    ensures IsOwnedChainRule(["-A", CHAIN] + rule, settings)
       <==> exists subnet :: settings.isPrivate(subnet) && rule == ChainRule(subnet, settings)
    ensures ["-A", CHAIN] + rule != ["-N", CHAIN]
  {
    var line := ["-A", CHAIN] + rule;
    assert line[0] == "-A" && line[2..] == rule;
    if exists subnet :: settings.isPrivate(subnet) && rule == ChainRule(subnet, settings) {
      var subnet :| settings.isPrivate(subnet) && rule == ChainRule(subnet, settings);
      assert line[3] == rule[1] == subnet;
    }
    if IsOwnedChainRule(line, settings) {
      assert (["-A", CHAIN] + ChainRule(line[3], settings))[2..] == ChainRule(line[3], settings);
      assert rule == ChainRule(line[3], settings);
    }
    assert "-A" != "-N" by { assert "-A"[1] == 'A'; }
  }

  lemma ChainValidates(rules: seq<Tokens>, settings: Settings)
    ensures (forall tokens | tokens in ChainLines(rules) :: tokens == ["-N", CHAIN] || IsOwnedChainRule(tokens, settings))
       <==> OwnedChain(rules, settings)
  {
    AppendedOnes(CHAIN, rules);
    forall rule { OwnedLine(rule, settings); }
    if forall tokens | tokens in ChainLines(rules) :: tokens == ["-N", CHAIN] || IsOwnedChainRule(tokens, settings) {
      forall rule | rule in rules ensures exists subnet :: settings.isPrivate(subnet) && rule == ChainRule(subnet, settings) {
        OwnedLine(rule, settings);
        assert ["-A", CHAIN] + rule in ChainLines(rules);
      }
    }
    if OwnedChain(rules, settings) {
      forall tokens | tokens in ChainLines(rules) ensures tokens == ["-N", CHAIN] || IsOwnedChainRule(tokens, settings) {
        if tokens != ["-N", CHAIN] {
          var rule :| rule in rules && tokens == ["-A", CHAIN] + rule;
          OwnedLine(rule, settings);
        }
      }
    }
  }

  lemma JumpLine(rule: Tokens)
    ensures var line := ["-A", "PREROUTING"] + rule;
            && (CHAIN in line || JUMP_COMMENT in line <==> CHAIN in rule || JUMP_COMMENT in rule)
            && (line == ["-A", "PREROUTING"] + JUMP <==> rule == JUMP)
  {
    var line := ["-A", "PREROUTING"] + rule;
    assert line[2..] == rule && (["-A", "PREROUTING"] + JUMP)[2..] == JUMP;
    NamesDiffer();
  }

  lemma NamesDiffer()
    ensures CHAIN !in ["-A", "PREROUTING"] && JUMP_COMMENT !in ["-A", "PREROUTING"]
    ensures CHAIN !in ["-P", "PREROUTING", "ACCEPT"] && JUMP_COMMENT !in ["-P", "PREROUTING", "ACCEPT"]
  {
    assert |CHAIN| == 17 && |JUMP_COMMENT| == 30 && |"PREROUTING"| == 10 && |"ACCEPT"| == 6 && |"-A"| == 2 && |"-P"| == 2;
  }

  lemma JumpsValidate(rules: seq<Tokens>)
    ensures (forall tokens | tokens in PreroutingLines(rules) ::
               CHAIN in tokens || JUMP_COMMENT in tokens ==> tokens == ["-A", "PREROUTING"] + JUMP)
       <==> OwnedJumps(rules)
  {
    AppendedOnes("PREROUTING", rules);
    NamesDiffer();
    if forall tokens | tokens in PreroutingLines(rules) ::
         CHAIN in tokens || JUMP_COMMENT in tokens ==> tokens == ["-A", "PREROUTING"] + JUMP {
      forall rule | rule in rules && (CHAIN in rule || JUMP_COMMENT in rule) ensures rule == JUMP {
        JumpLine(rule);
        assert ["-A", "PREROUTING"] + rule in PreroutingLines(rules);
      }
    }
    if OwnedJumps(rules) {
      forall tokens | tokens in PreroutingLines(rules) && (CHAIN in tokens || JUMP_COMMENT in tokens)
        ensures tokens == ["-A", "PREROUTING"] + JUMP
      {
        var rule :| rule in rules && tokens == ["-A", "PREROUTING"] + rule;
        JumpLine(rule);
      }
    }
  }

  /** What `verify` compares: the chain's listing with the assigned one, and the jumps of the other by number. */
  predicate VerifiesExactly(chainLines: seq<Tokens>, preroutingLines: seq<Tokens>, subnets: seq<string>, settings: Settings) {
    && chainLines == ChainLines(RulesOf(subnets, settings))
    && CountOf(preroutingLines, ["-A", "PREROUTING"] + JUMP) == 1
  }

  lemma {:induction false} JumpsCounted(rules: seq<Tokens>)
    ensures CountOf(Appended("PREROUTING", rules), ["-A", "PREROUTING"] + JUMP) == Count(rules)
  {
    if rules != [] {
      JumpsCounted(rules[1..]);
      JumpLine(rules[0]);
      assert Appended("PREROUTING", rules)[1..] == Appended("PREROUTING", rules[1..]);
    }
  }

  lemma ListingsDiffer(one: seq<Tokens>, other: seq<Tokens>)
    requires ChainLines(one) == ChainLines(other)
    ensures one == other
  {
    assert |ChainLines(one)| == |one| + 1 && |ChainLines(other)| == |other| + 1;
    forall i | 0 <= i < |one| ensures one[i] == other[i] {
      assert ChainLines(one)[i + 1] == ["-A", CHAIN] + one[i] && ChainLines(other)[i + 1] == ["-A", CHAIN] + other[i];
      assert one[i] == (["-A", CHAIN] + one[i])[2..] == (["-A", CHAIN] + other[i])[2..] == other[i];
    }
  }

  lemma VerifiesTheAssigned(chain: seq<Tokens>, prerouting: seq<Tokens>, subnets: seq<string>, settings: Settings)
    ensures VerifiesExactly(ChainLines(chain), PreroutingLines(prerouting), subnets, settings)
       <==> chain == RulesOf(subnets, settings) && Count(prerouting) == 1
  {
    if ChainLines(chain) == ChainLines(RulesOf(subnets, settings)) { ListingsDiffer(chain, RulesOf(subnets, settings)); }
    JumpsCounted(prerouting);
    var lines := PreroutingLines(prerouting);
    assert lines[1..] == Appended("PREROUTING", prerouting);
    assert lines[0] == ["-P", "PREROUTING", "ACCEPT"] != ["-A", "PREROUTING"] + JUMP by {
      assert |["-A", "PREROUTING"] + JUMP| == 8;
    }
  }

  // ---- Where the two commands lead ----

  /** The jumps before and after, where just one stands first. */
  function Jumping(prerouting: seq<Tokens>): (jumping: seq<Tokens>) {
    [JUMP] + Unowned(prerouting)
  }

  lemma Prepended(rule: Tokens, rest: seq<Tokens>)
    ensures Unowned([rule] + rest) == (if rule == JUMP then [] else [rule]) + Unowned(rest)
    ensures Count([rule] + rest) == (if rule == JUMP then 1 else 0) + Count(rest)
  {
    assert ([rule] + rest)[1..] == rest;
  }

  lemma {:induction false} UnownedStays(rules: seq<Tokens>)
    ensures Unowned(Unowned(rules)) == Unowned(rules)
    ensures JUMP !in Unowned(rules)
    ensures forall rule | rule in Unowned(rules) :: rule in rules
  {
    if rules != [] {
      UnownedStays(rules[1..]);
      Prepended(rules[0], Unowned(rules[1..]));
      if rules[0] == JUMP { assert Unowned(rules) == Unowned(rules[1..]); }
    }
  }

  /** One reconciliation after another changes nothing. */
  lemma JumpingTwice(prerouting: seq<Tokens>)
    ensures Jumping(Jumping(prerouting)) == Jumping(prerouting)
    ensures Unowned(Jumping(prerouting)) == Unowned(prerouting)
    ensures Count(Jumping(prerouting)) == 1
  {
    var others := Unowned(prerouting);
    UnownedStays(prerouting);
    NoneCounted(others);
    Prepended(JUMP, others);
    assert Unowned(Jumping(prerouting)) == [] + Unowned(others) == others;
  }

  /** Where the only jump stands first, the rest are the rules of others. */
  lemma OneJumpFirst(rest: seq<Tokens>)
    requires Count([JUMP] + rest) == 1
    ensures rest == Unowned(rest)
  {
    Prepended(JUMP, rest);
    NoneCounted(rest);
  }

  lemma AssignedAreOwned(subnets: seq<string>, settings: Settings)
    requires forall subnet | subnet in subnets :: settings.isPrivate(subnet)
    ensures OwnedChain(RulesOf(subnets, settings), settings)
  {
    forall rule | rule in RulesOf(subnets, settings)
      ensures exists subnet :: settings.isPrivate(subnet) && rule == ChainRule(subnet, settings)
    {
      var i :| 0 <= i < |subnets| && RulesOf(subnets, settings)[i] == rule;
      assert settings.isPrivate(subnets[i]);
    }
  }

  lemma JumpRefers()
    ensures Refers(JUMP)
  {
    assert JUMP[4] == "-j" && JUMP[5] == CHAIN;
  }
}
