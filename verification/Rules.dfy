/** Which contracts a decoded log announces. */
module Rules {
  import opened Records
  import opened World
  import Registry

  datatype Candidate = Candidate(address: Address, kind: string)

  type Contracts = map<Address, Registry.ContractRow>

  const ZERO: Address := 0

  function KindOf(contracts: Contracts, argument: Option<Argument>): Option<string> {
    if argument.Some? && argument.value.AddressArgument? && argument.value.address in contracts
    then Some(contracts[argument.value.address].identity.kind)
    else None
  }

  function ArgumentOf(decoded: Decoded, name: string): Option<Argument>
    requires decoded.Decoded?
  {
    if name in decoded.arguments then Some(decoded.arguments[name]) else None
  }

  predicate KnownQuote(kind: Option<string>) {
    kind == Some("weth") || kind == Some("usdc")
  }

  /** A pair of two addresses, one of them a known REP token and the other a known quote token. */
  predicate KnownRepQuotePair(decoded: Decoded, contracts: Contracts)
    requires decoded.Decoded?
  {
    var token0, token1 := ArgumentOf(decoded, "token0"), ArgumentOf(decoded, "token1");
    && token0.Some? && token0.value.AddressArgument? && token1.Some? && token1.value.AddressArgument?
    && var kind0, kind1 := KindOf(contracts, token0), KindOf(contracts, token1);
       && (kind0 == Some("reputationToken") || kind1 == Some("reputationToken"))
       && (KnownQuote(kind0) || KnownQuote(kind1))
  }

  /** An event announces its address argument as a contract of a kind. */
  datatype Rule = Rule(event: string, argument: string, kind: string)

  const RULES: seq<Rule> := [
    Rule("PairCreated", "pair", "ammPair"),
    Rule("DeploySecurityPool", "securityPool", "securityPool"),
    Rule("DeploySecurityPool", "truthAuction", "truthAuction"),
    Rule("DeploySecurityPool", "priceOracleManagerAndOperatorQueuer", "priceCoordinator"),
    Rule("DeploySecurityPool", "shareToken", "shareToken"),
    Rule("DeployChild", "childReputationToken", "reputationToken"),
    Rule("EscalationGameSet", "escalationGame", "escalationGame")]

  const V2_RULE := Rule("PairCreated", "pair", "uniswapV2Pair")
  const V3_RULE := Rule("PoolCreated", "pool", "uniswapV3Pool")

  /** The event of an exchange factory; the scanner's own pair factory emits one of the same name. */
  predicate OfExchange(decoded: Decoded, rule: Rule)
    requires decoded.Decoded?
  {
    decoded.name == rule.event && (rule == V2_RULE ==> "token0" in decoded.arguments)
  }

  /** What an argument names, if it is an address. */
  function Named(decoded: Decoded, rule: Rule): seq<Candidate>
    requires decoded.Decoded?
  {
    var value := ArgumentOf(decoded, rule.argument);
    if value.Some? && value.value.AddressArgument? then [Candidate(value.value.address, rule.kind)] else []
  }

  function FromRule(decoded: Decoded, rule: Rule): seq<Candidate>
    requires decoded.Decoded?
  {
    if decoded.name != rule.event || Named(decoded, rule) == [] || Named(decoded, rule)[0].address == ZERO then [] else Named(decoded, rule)
  }

  function FromRules(decoded: Decoded, rules: seq<Rule>): seq<Candidate>
    requires decoded.Decoded?
  {
    if rules == [] then [] else FromRules(decoded, rules[..|rules| - 1]) + FromRule(decoded, rules[|rules| - 1])
  }

  function DiscoveriesFrom(decoded: Decoded, contracts: Contracts): seq<Candidate> {
    if decoded.Undecoded? then []
    else if OfExchange(decoded, V2_RULE) then if KnownRepQuotePair(decoded, contracts) then Named(decoded, V2_RULE) else []
    else if OfExchange(decoded, V3_RULE) then if KnownRepQuotePair(decoded, contracts) then Named(decoded, V3_RULE) else []
    else FromRules(decoded, RULES)
  }

  // ---------------------------------------------------------------- what that amounts to

  /** The log has the address as the argument that the rule is about, and the rule's event. */
  predicate Fits(decoded: Decoded, rule: Rule, c: Candidate) {
    && decoded.Decoded? && decoded.name == rule.event && c.kind == rule.kind
    && rule.argument in decoded.arguments && decoded.arguments[rule.argument] == AddressArgument(c.address)
  }

  predicate HasAddress(decoded: Decoded, argument: string, a: Address) {
    decoded.Decoded? && argument in decoded.arguments && decoded.arguments[argument] == AddressArgument(a)
  }

  predicate IsOfKind(contracts: Contracts, a: Address, kinds: set<string>) {
    a in contracts && contracts[a].identity.kind in kinds
  }

  /** Both tokens are given, one of the two is a known REP token and one a known quote token. */
  ghost predicate TradesRep(decoded: Decoded, contracts: Contracts) {
    exists a, b ::
      && HasAddress(decoded, "token0", a) && HasAddress(decoded, "token1", b)
      && (IsOfKind(contracts, a, {"reputationToken"}) || IsOfKind(contracts, b, {"reputationToken"}))
      && (IsOfKind(contracts, a, {"weth", "usdc"}) || IsOfKind(contracts, b, {"weth", "usdc"}))
  }

  /** A pair or pool of an exchange is announced if it trades a REP token for a quote token; anything else
      by the event and the argument that stand for its kind, unless it is the zero address. */
  ghost predicate Announces(decoded: Decoded, contracts: Contracts, c: Candidate) {
    && decoded.Decoded?
    && match c.kind
       case "uniswapV2Pair" =>
         decoded.name == "PairCreated" && "token0" in decoded.arguments && HasAddress(decoded, "pair", c.address) && TradesRep(decoded, contracts)
       case "uniswapV3Pool" => decoded.name == "PoolCreated" && HasAddress(decoded, "pool", c.address) && TradesRep(decoded, contracts)
       case "ammPair" => decoded.name == "PairCreated" && "token0" !in decoded.arguments && NamesContract(decoded, "pair", c.address)
       case "securityPool" => decoded.name == "DeploySecurityPool" && NamesContract(decoded, "securityPool", c.address)
       case "truthAuction" => decoded.name == "DeploySecurityPool" && NamesContract(decoded, "truthAuction", c.address)
       case "priceCoordinator" =>
         decoded.name == "DeploySecurityPool" && NamesContract(decoded, "priceOracleManagerAndOperatorQueuer", c.address)
       case "shareToken" => decoded.name == "DeploySecurityPool" && NamesContract(decoded, "shareToken", c.address)
       case "reputationToken" => decoded.name == "DeployChild" && NamesContract(decoded, "childReputationToken", c.address)
       case "escalationGame" => decoded.name == "EscalationGameSet" && NamesContract(decoded, "escalationGame", c.address)
       case _ => false
  }

  predicate NamesContract(decoded: Decoded, argument: string, a: Address) {
    HasAddress(decoded, argument, a) && a != 0
  }

  lemma {:induction false} RulesExactly(decoded: Decoded, rules: seq<Rule>, c: Candidate)
    requires decoded.Decoded?
    ensures c in FromRules(decoded, rules) <==> c.address != ZERO && exists k :: 0 <= k < |rules| && Fits(decoded, rules[k], c)
  {
    if rules != [] {
      var front, last := rules[..|rules| - 1], rules[|rules| - 1];
      RulesExactly(decoded, front, c);
      assert forall k :: 0 <= k < |front| ==> front[k] == rules[k];
      assert Fits(decoded, last, c) ==> exists k :: 0 <= k < |rules| && Fits(decoded, rules[k], c);
    }
  }

  lemma PairIsKnown(decoded: Decoded, contracts: Contracts)
    requires decoded.Decoded?
    ensures KnownRepQuotePair(decoded, contracts) <==> TradesRep(decoded, contracts)
  {
    var token0, token1 := ArgumentOf(decoded, "token0"), ArgumentOf(decoded, "token1");
    if token0.Some? && token0.value.AddressArgument? && token1.Some? && token1.value.AddressArgument? {
      assert HasAddress(decoded, "token0", token0.value.address) && HasAddress(decoded, "token1", token1.value.address);
    }
  }

  /** The rules, one by one. */
  lemma ByRule(decoded: Decoded, c: Candidate)
    ensures (exists k :: 0 <= k < |RULES| && Fits(decoded, RULES[k], c)) <==>
            || Fits(decoded, RULES[0], c) || Fits(decoded, RULES[1], c) || Fits(decoded, RULES[2], c) || Fits(decoded, RULES[3], c)
            || Fits(decoded, RULES[4], c) || Fits(decoded, RULES[5], c) || Fits(decoded, RULES[6], c)
  {
  }

  lemma RuleAnnounces(decoded: Decoded, contracts: Contracts, c: Candidate)
    requires decoded.Decoded? && !OfExchange(decoded, V2_RULE) && !OfExchange(decoded, V3_RULE)
    ensures (c.address != ZERO && exists k :: 0 <= k < |RULES| && Fits(decoded, RULES[k], c)) <==> Announces(decoded, contracts, c)
  {
    ByRule(decoded, c);
  }

  lemma ExchangeAnnounces(decoded: Decoded, contracts: Contracts, c: Candidate)
    requires decoded.Decoded? && (OfExchange(decoded, V2_RULE) || OfExchange(decoded, V3_RULE))
    ensures c in DiscoveriesFrom(decoded, contracts) <==> Announces(decoded, contracts, c)
  {
    PairIsKnown(decoded, contracts);
  }

  /** A log announces exactly the candidates found in it. */
  lemma FoundExactly(decoded: Decoded, contracts: Contracts, c: Candidate)
    ensures c in DiscoveriesFrom(decoded, contracts) <==> Announces(decoded, contracts, c)
  {
    if decoded.Decoded? {
      if OfExchange(decoded, V2_RULE) || OfExchange(decoded, V3_RULE) {
        ExchangeAnnounces(decoded, contracts, c);
      } else {
        RulesExactly(decoded, RULES, c);
        RuleAnnounces(decoded, contracts, c);
      }
    }
  }

  /** So every candidate is an address argument of the log. */
  lemma FoundIsArgument(decoded: Decoded, contracts: Contracts, c: Candidate)
    requires c in DiscoveriesFrom(decoded, contracts)
    ensures decoded.Decoded? && exists name :: name in decoded.arguments && decoded.arguments[name] == AddressArgument(c.address)
  {
    FoundExactly(decoded, contracts, c);
  }
}
