/** What the test shop's rules do to a packet: which ones they send on to the ingress, and which they leave alone. */
module HairpinPackets {
  import opened Options
  import opened Hairpin

  datatype Packet = Packet(source: string, destination: string, protocol: string, port: string)

  /** Where a packet goes: on as it is, to another address, or wherever a rule of others has it go. */
  datatype Fate = Untouched | SentTo(address: string) | Elsewhere(verdict: string)

  /** Which addresses a network holds, and what a rule that is not the tool's does to a packet, if anything. */
  datatype Kernel = Kernel(within: (string, string) -> bool, others: (Tokens, Packet) -> Option<string>)

  /** A network of one address holds that one. */
  ghost predicate SingleHosts(kernel: Kernel) {
    forall address, host :: kernel.within(address, host + "/32") <==> address == host
  }

  // ---- A rule, read word by word ----

  /** What a rule's words give an option, each option followed by its value. */
  function ValueOf(rule: Tokens, option: string): Option<string> {
    if |rule| < 2 then None
    else if rule[0] == option then Some(rule[1])
    else ValueOf(rule[2..], option)
  }

  /** Every option is one that is known, and every module one whose options these are. */
  predicate Understood(rule: Tokens) {
    || rule == []
    || (&& |rule| >= 2
        && (if rule[0] == "-m" then rule[1] in ["tcp", "comment"]
            else rule[0] in ["-s", "-d", "-p", "--dport", "--comment", "-j", "--to-destination"])
        && Understood(rule[2..]))
  }

  predicate Matches(kernel: Kernel, rule: Tokens, packet: Packet) {
    && Understood(rule)
    && (ValueOf(rule, "-s").Some? ==> kernel.within(packet.source, ValueOf(rule, "-s").value))
    && (ValueOf(rule, "-d").Some? ==> kernel.within(packet.destination, ValueOf(rule, "-d").value))
    && (ValueOf(rule, "-p").Some? ==> packet.protocol == ValueOf(rule, "-p").value)
    && (ValueOf(rule, "--dport").Some? ==> packet.port == ValueOf(rule, "--dport").value)
  }

  /** The first rule of the tool's chain that matches and rewrites decides. */
  function InChain(kernel: Kernel, rules: seq<Tokens>, packet: Packet): Option<Fate> {
    if rules == [] then None
    else if Matches(kernel, rules[0], packet) && ValueOf(rules[0], "-j") == Some("DNAT") && ValueOf(rules[0], "--to-destination").Some?
    then Some(SentTo(ValueOf(rules[0], "--to-destination").value))
    else InChain(kernel, rules[1..], packet)
  }

  /** What one rule ahead of routing does. */
  function AtRule(kernel: Kernel, chain: Option<seq<Tokens>>, rule: Tokens, packet: Packet): Option<Fate> {
    if ValueOf(rule, "-j") == Some("AGENTIFY_TEST_WOO") then
      if chain.Some? && Matches(kernel, rule, packet) then InChain(kernel, chain.value, packet) else None
    else
      match kernel.others(rule, packet)
      case Some(verdict) => Some(Elsewhere(verdict))
      case None => None
  }

  /** Rules ahead of routing, in their order, until one decides. */
  function FateOf(kernel: Kernel, chain: Option<seq<Tokens>>, prerouting: seq<Tokens>, packet: Packet): Fate {
    if prerouting == [] then Untouched
    else
      match AtRule(kernel, chain, prerouting[0], packet)
      case Some(fate) => fate
      case None => FateOf(kernel, chain, prerouting[1..], packet)
  }

  /** The rules that do not mention the tool's chain. */
  function OthersOf(rules: seq<Tokens>): seq<Tokens> {
    if rules == [] then []
    else (if "AGENTIFY_TEST_WOO" in rules[0] then [] else [rules[0]]) + OthersOf(rules[1..])
  }

  /** A packet the shop's own networks send to its public address over https. */
  predicate IsHairpin(kernel: Kernel, subnets: seq<string>, settings: Settings, packet: Packet) {
    && (exists i | 0 <= i < |subnets| :: kernel.within(packet.source, subnets[i]))
    && packet.destination == settings.publicIp && packet.protocol == "tcp" && packet.port == "443"
  }

  /** The table sends those to the ingress and no other packet anywhere: that is for the rules there were besides. */
  ghost predicate Serves(subnets: seq<string>, settings: Settings, chain: Option<seq<Tokens>>, prerouting: seq<Tokens>, before: seq<Tokens>) {
    forall kernel: Kernel, packet: Packet | SingleHosts(kernel) ::
      FateOf(kernel, chain, prerouting, packet) ==
        if IsHairpin(kernel, subnets, settings, packet) then SentTo(settings.ingressIp + ":443")
        else FateOf(kernel, None, OthersOf(before), packet)
  }

  /** The table does to every packet what the rules of others did. */
  ghost predicate LeavesAlone(chain: Option<seq<Tokens>>, prerouting: seq<Tokens>, before: seq<Tokens>) {
    forall kernel: Kernel, packet: Packet ::
      FateOf(kernel, chain, prerouting, packet) == FateOf(kernel, None, OthersOf(before), packet)
  }

  // ---- The tool's own rules ----

  lemma OptionsDiffer()
    ensures "-s" != "-d" && "-s" != "-p" && "-d" != "-p" && "-s" != "-m" && "-d" != "-m" && "-p" != "-m"
    ensures "-j" != "-s" && "-j" != "-d" && "-j" != "-p" && "-j" != "-m"
    ensures forall short | short in ["-s", "-d", "-p", "-m", "-j"] ::
              short != "--dport" && short != "--comment" && short != "--to-destination"
    ensures "--dport" != "--comment" && "--dport" != "--to-destination" && "--comment" != "--to-destination"
  {
    assert "-s"[1] == 's' && "-d"[1] == 'd' && "-p"[1] == 'p' && "-m"[1] == 'm' && "-j"[1] == 'j';
    assert |"--dport"| == 7 && |"--comment"| == 9 && |"--to-destination"| == 16;
  }

  function OptionAt(rule: Tokens, k: nat): string
    requires 2 * k + 1 < |rule|
  {
    rule[2 * k]
  }

  /** What an option is given is the word behind it where it first stands. */
  lemma {:induction false} FirstGiven(rule: Tokens, option: string, i: nat)
    requires 2 * i + 1 < |rule| && OptionAt(rule, i) == option && forall k: nat | k < i :: OptionAt(rule, k) != option
    ensures ValueOf(rule, option) == Some(rule[2 * i + 1])
  {
    if i > 0 {
      assert OptionAt(rule, 0) != option;
      forall k: nat | k < i - 1 ensures OptionAt(rule[2..], k) != option { assert OptionAt(rule[2..], k) == OptionAt(rule, k + 1); }
      assert OptionAt(rule[2..], i - 1) == OptionAt(rule, i);
      FirstGiven(rule[2..], option, i - 1);
    }
  }

  /** An option that stands nowhere is given nothing. */
  lemma {:induction false} NeverGiven(rule: Tokens, option: string)
    requires forall k: nat | 2 * k + 1 < |rule| :: OptionAt(rule, k) != option
    ensures ValueOf(rule, option).None?
  {
    if |rule| >= 2 {
      assert OptionAt(rule, 0) != option;
      forall k: nat | 2 * k + 1 < |rule[2..]| ensures OptionAt(rule[2..], k) != option { assert OptionAt(rule[2..], k) == OptionAt(rule, k + 1); }
      NeverGiven(rule[2..], option);
    }
  }

  /** The options of the tool's chain rules, in their order; the module named is the one that stands twice. */
  const OPTIONS: seq<string> := ["-s", "-d", "-p", "-m", "--dport", "-m", "--comment", "-j", "--to-destination"]

  lemma OptionsOnce(i: nat)
    requires i < 9 && OPTIONS[i] != "-m"
    ensures forall k: nat | k < i :: OPTIONS[k] != OPTIONS[i]
  {
    OptionsDiffer();
  }

  lemma ChainRuleOption(subnet: string, settings: Settings, i: nat)
    requires i < 9 && OPTIONS[i] != "-m"
    ensures |ChainRule(subnet, settings)| == 18 && ValueOf(ChainRule(subnet, settings), OPTIONS[i]) == Some(ChainRule(subnet, settings)[2 * i + 1])
  {
    var rule := ChainRule(subnet, settings);
    assert forall k: nat | k < 9 :: OptionAt(rule, k) == OPTIONS[k];
    OptionsOnce(i);
    FirstGiven(rule, OPTIONS[i], i);
  }

  /** One of the tool's chain rules, option by option. */
  lemma ChainRuleReads(subnet: string, settings: Settings)
    ensures ValueOf(ChainRule(subnet, settings), "-s") == Some(subnet)
    ensures ValueOf(ChainRule(subnet, settings), "-d") == Some(settings.publicIp + "/32")
    ensures ValueOf(ChainRule(subnet, settings), "-p") == Some("tcp")
    ensures ValueOf(ChainRule(subnet, settings), "--dport") == Some("443")
    ensures ValueOf(ChainRule(subnet, settings), "-j") == Some("DNAT")
    ensures ValueOf(ChainRule(subnet, settings), "--to-destination") == Some(settings.ingressIp + ":443")
  {
    OptionsDiffer();
    ChainRuleOption(subnet, settings, 0);
    ChainRuleOption(subnet, settings, 1);
    ChainRuleOption(subnet, settings, 2);
    ChainRuleOption(subnet, settings, 4);
    ChainRuleOption(subnet, settings, 7);
    ChainRuleOption(subnet, settings, 8);
    assert settings.ingressIp + ":" + "443" == settings.ingressIp + ":443";
  }

  lemma ChainRuleDoes(kernel: Kernel, subnet: string, settings: Settings, packet: Packet)
    requires SingleHosts(kernel)
    ensures Matches(kernel, ChainRule(subnet, settings), packet) <==>
              && kernel.within(packet.source, subnet) && packet.destination == settings.publicIp
              && packet.protocol == "tcp" && packet.port == "443"
    ensures ValueOf(ChainRule(subnet, settings), "-j") == Some("DNAT")
    ensures ValueOf(ChainRule(subnet, settings), "--to-destination") == Some(settings.ingressIp + ":443")
  {
    ChainRuleReads(subnet, settings);
    ChainRuleIsUnderstood(subnet, settings);
  }

  lemma {:induction false} ChainSendsOn(kernel: Kernel, subnets: seq<string>, settings: Settings, packet: Packet)
    requires SingleHosts(kernel)
    ensures InChain(kernel, RulesOf(subnets, settings), packet) ==
              if IsHairpin(kernel, subnets, settings, packet) then Some(SentTo(settings.ingressIp + ":443")) else None
  {
    if subnets != [] {
      ChainSendsOn(kernel, subnets[1..], settings, packet);
      assert RulesOf(subnets, settings)[1..] == RulesOf(subnets[1..], settings);
      ChainRuleDoes(kernel, subnets[0], settings, packet);
      assert IsHairpin(kernel, subnets, settings, packet) <==>
        IsHairpin(kernel, subnets[1..], settings, packet) || Matches(kernel, ChainRule(subnets[0], settings), packet) by {
        assert forall i | 0 <= i < |subnets[1..]| :: subnets[1..][i] == subnets[i + 1];
        if i :| 0 <= i < |subnets| && kernel.within(packet.source, subnets[i]) {
          if i > 0 { assert kernel.within(packet.source, subnets[1..][i - 1]); }
        }
      }
    }
  }

  predicate KnownAt(rule: Tokens, k: nat)
    requires 2 * k + 1 < |rule|
  {
    if rule[2 * k] == "-m" then rule[2 * k + 1] in ["tcp", "comment"]
    else rule[2 * k] in ["-s", "-d", "-p", "--dport", "--comment", "-j", "--to-destination"]
  }

  lemma {:induction false} AllUnderstood(rule: Tokens)
    requires |rule| % 2 == 0 && forall k: nat | 2 * k + 1 < |rule| :: KnownAt(rule, k)
    ensures Understood(rule)
  {
    if rule != [] {
      assert KnownAt(rule, 0);
      forall k: nat | 2 * k + 1 < |rule[2..]| ensures KnownAt(rule[2..], k) { assert KnownAt(rule, k + 1); }
      AllUnderstood(rule[2..]);
    }
  }

  lemma JumpIsUnderstood()
    ensures Understood(JUMP)
  {
    OptionsDiffer();
    assert KnownAt(JUMP, 0) && KnownAt(JUMP, 1) && KnownAt(JUMP, 2);
    AllUnderstood(JUMP);
  }

  lemma ChainRuleIsUnderstood(subnet: string, settings: Settings)
    ensures Understood(ChainRule(subnet, settings))
  {
    var rule := ChainRule(subnet, settings);
    forall k: nat | 2 * k + 1 < |rule| ensures KnownAt(rule, k) {
      assert OptionAt(rule, k) == OPTIONS[k];
      if k == 3 { assert rule[7] == "tcp"; } else if k == 5 { assert rule[11] == "comment"; } else { OptionsDiffer(); }
    }
    AllUnderstood(rule);
  }

  /** The jump takes every packet to the chain. */
  lemma JumpTakesAll(kernel: Kernel, chain: Option<seq<Tokens>>, packet: Packet)
    ensures AtRule(kernel, chain, JUMP, packet) == if chain.Some? then InChain(kernel, chain.value, packet) else None
  {
    OptionsDiffer();
    JumpIsUnderstood();
    NeverGiven(JUMP, "-s");
    NeverGiven(JUMP, "-d");
    NeverGiven(JUMP, "-p");
    NeverGiven(JUMP, "--dport");
    FirstGiven(JUMP, "-j", 2);
  }

  /** A table as a deployment's listings show it, word for word: the tool takes both rules for its own. */
  lemma AsInstalled()
    ensures var settings := Settings("203.0.113.10", "192.0.2.7", (subnet: string) => subnet == "172.18.0.0/16");
            var chain := [["-s", "172.18.0.0/16", "-d", "203.0.113.10/32", "-p", "tcp", "-m", "tcp", "--dport", "443",
                           "-m", "comment", "--comment", "agentify-test-woo-hairpin", "-j", "DNAT",
                           "--to-destination", "192.0.2.7:443"]];
            var jump := ["-m", "comment", "--comment", "agentify-test-woo-hairpin-jump", "-j", "AGENTIFY_TEST_WOO"];
            Accepted(Some(chain), [jump], settings) && Count([jump]) == 1 && RulesOf(["172.18.0.0/16"], settings) == chain
  {
    var settings := Settings("203.0.113.10", "192.0.2.7", (subnet: string) => subnet == "172.18.0.0/16");
    assert "203.0.113.10" + "/32" == "203.0.113.10/32" && "192.0.2.7" + ":" + "443" == "192.0.2.7:443";
    var rule := ["-s", "172.18.0.0/16", "-d", "203.0.113.10/32", "-p", "tcp", "-m", "tcp", "--dport", "443",
                 "-m", "comment", "--comment", "agentify-test-woo-hairpin", "-j", "DNAT", "--to-destination", "192.0.2.7:443"];
    assert rule == ChainRule("172.18.0.0/16", settings);
    assert settings.isPrivate("172.18.0.0/16");
    assert OwnedChain([rule], settings);
    assert [JUMP][1..] == [];
  }

  // ---- The rules of others ----

  lemma {:induction false} ValueIsAWord(rule: Tokens, option: string)
    ensures ValueOf(rule, option).Some? ==> ValueOf(rule, option).value in rule
  {
    if |rule| >= 2 && rule[0] != option { ValueIsAWord(rule[2..], option); }
  }

  /** Rules that do not mention the chain do the same whatever it holds. */
  lemma {:induction false} OthersApart(kernel: Kernel, chain: Option<seq<Tokens>>, rules: seq<Tokens>, packet: Packet)
    requires forall rule | rule in rules :: "AGENTIFY_TEST_WOO" !in rule
    ensures FateOf(kernel, chain, rules, packet) == FateOf(kernel, None, rules, packet)
  {
    if rules != [] {
      OthersApart(kernel, chain, rules[1..], packet);
      ValueIsAWord(rules[0], "-j");
      assert rules[0] in rules;
    }
  }

  /** Where only the tool's jump mentions the chain, the rules of others are those that do not. */
  lemma {:induction false} OthersAreUnowned(rules: seq<Tokens>)
    requires OwnedJumps(rules)
    ensures OthersOf(rules) == Unowned(rules)
    ensures forall rule | rule in OthersOf(rules) :: "AGENTIFY_TEST_WOO" !in rule
  {
    if rules != [] {
      assert rules == [rules[0]] + rules[1..];
      OthersAreUnowned(rules[1..]);
      assert JUMP[5] == "AGENTIFY_TEST_WOO";
    }
  }

  /** With the assigned rules in the chain and one jump ahead of all, the table serves the shop and leaves the rest alone. */
  lemma AssignedServes(subnets: seq<string>, settings: Settings, before: seq<Tokens>)
    requires OwnedJumps(before)
    ensures Serves(subnets, settings, Some(RulesOf(subnets, settings)), Jumping(before), before)
  {
    var chain := Some(RulesOf(subnets, settings));
    OthersAreUnowned(before);
    forall kernel: Kernel, packet: Packet | SingleHosts(kernel)
      ensures FateOf(kernel, chain, Jumping(before), packet) ==
                if IsHairpin(kernel, subnets, settings, packet) then SentTo(settings.ingressIp + ":443")
                else FateOf(kernel, None, OthersOf(before), packet)
    {
      ChainSendsOn(kernel, subnets, settings, packet);
      JumpTakesAll(kernel, chain, packet);
      assert Jumping(before)[1..] == Unowned(before);
      OthersApart(kernel, chain, Unowned(before), packet);
    }
  }

  /** With no chain and no jump it leaves all alone. */
  lemma AbsentLeavesAlone(before: seq<Tokens>)
    requires OwnedJumps(before)
    ensures LeavesAlone(None, Unowned(before), before)
  {
    OthersAreUnowned(before);
  }
}
