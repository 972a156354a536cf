/** The settling statement as its query is written, relation by relation, and that it decides as the simple rule does. */
module AdReportStatement {
  import opened Options
  import opened AdReportModel
  import opened AdReportSettling

  /** A line of the locked waiting reports, with the account's merchant and its registration's state. */
  datatype WaitingLine = WaitingLine(account: Account, createdAt: int, merchant: Option<Merchant>, registration: State)

  datatype CardLine = CardLine(merchant: Merchant, publishedAt: int)

  /** What the query decides of one account; no fate is `Stay`. */
  datatype FateLine = FateLine(account: Account, publishedAt: Option<int>, fate: Fate)

  // ---- The relations, in the query's order ----

  /** Waiting store reports joined with their accounts and registrations' reports, those locked elsewhere left out. */
  function WaitingLines(w: World, skipped: set<Account>): set<WaitingLine> {
    set r, a, reg | r in w.rows && a in w.merchantOf && reg in w.rows
                    && a == r.account && reg.account == r.account && reg.event.Reg?
                    && r.event.StoreConnected? && w.rows[r].state.Waiting? && r.account !in skipped
      :: WaitingLine(r.account, w.rows[r].createdAt, w.merchantOf[a], w.rows[reg].state)
  }

  /** The least publication time of each merchant some waiting line names. */
  function FirstCards(w: World, waiting: set<WaitingLine>): set<CardLine> {
    set m | m in w.cards && w.cards[m] != [] && Some(m) in (set line | line in waiting :: line.merchant)
      :: CardLine(m, Earliest(w.cards[m]))
  }

  /** Waiting lines joined with their merchant's first card, where it counts and nobody took the report. */
  function JoinedCards(w: World, waiting: set<WaitingLine>, cards: set<CardLine>): set<Line> {
    set line, card | line in waiting && card in cards && line.merchant == Some(card.merchant)
                     && line.createdAt <= card.publishedAt < line.createdAt + KEPT_FOR_MS
                     && !Failed(line.registration) && !Taken(w, card.merchant)
      :: Line(card.merchant, line.createdAt, line.account, card.publishedAt)
  }

  /** No two lines that stand level. */
  predicate Ranked(lines: set<Line>) {
    forall one, other | one in lines && other in lines && one != other :: LineBefore(one, other) || LineBefore(other, one)
  }

  predicate IsLeast(lines: set<Line>, least: Line) {
    least in lines && forall other | other in lines && other != least :: LineBefore(least, other)
  }

  lemma {:induction false} LeastExists(lines: set<Line>)
    requires lines != {} && Ranked(lines)
    ensures exists least | least in lines :: IsLeast(lines, least)
    decreases lines
  {
    var one :| one in lines;
    var rest := lines - {one};
    assert lines == rest + {one};
    if rest == {} {
      assert IsLeast(lines, one);
    } else {
      LeastExists(rest);
      var other :| other in rest && IsLeast(rest, other);
      assert IsLeast(lines, if LineBefore(one, other) then one else other);
    }
  }

  function Least(lines: set<Line>): (least: Line)
    requires lines != {} && Ranked(lines)
    ensures IsLeast(lines, least)
  {
    LeastExists(lines);
    var least :| least in lines && IsLeast(lines, least);
    least
  }

  /** `order by merchant_id, created_at, account_id`, from the least. */
  function OrderedBy(lines: set<Line>): seq<Line>
    requires Ranked(lines)
    decreases lines
  {
    if lines == {} then [] else [Least(lines)] + OrderedBy(lines - {Least(lines)})
  }

  lemma {:induction false} OrderedByIsOrdered(lines: set<Line>)
    requires Ranked(lines)
    ensures Ordered(OrderedBy(lines)) && forall line :: line in OrderedBy(lines) <==> line in lines
    decreases lines
  {
    if lines != {} {
      OrderedByIsOrdered(lines - {Least(lines)});
      assert lines == (lines - {Least(lines)}) + {Least(lines)};
    }
  }

  /** The lines a left join pairs with: those that match, or one that holds nothing. */
  function LeftCards(cards: set<CardLine>, line: WaitingLine): set<Option<CardLine>> {
    var matching := set card | card in cards && line.merchant == Some(card.merchant) :: Some(card);
    if matching == {} then {None} else matching
  }

  function LeftChosen(chosen: seq<Line>, line: WaitingLine): set<Option<Line>> {
    var matching := set one | one in chosen && one.account == line.account :: Some(one);
    if matching == {} then {None} else matching
  }

  /** The query's case, a comparison with nothing never true. */
  function CaseOf(line: WaitingLine, card: Option<CardLine>, chosen: Option<Line>, at: int, promote: bool): Fate {
    if Failed(line.registration) then Lapse(RegistrationNotDelivered)
    else if chosen.Some? then
      if line.registration.Delivered? && promote then
        if at < LastTry(chosen.value.publishedAt, line.createdAt) then Due else Late
      else if at < line.createdAt + KEPT_FOR_MS then Stay
      else if line.registration.Delivered? then Lapse(SwitchedOffPast30Days)
      else Lapse(RegistrationNotDelivered)
    else if card.Some? && card.value.publishedAt < line.createdAt then Lapse(FirstCardBeforeRegistration)
    else if card.Some? && card.value.publishedAt < line.createdAt + KEPT_FOR_MS then Lapse(BelongsToAnotherAccount)
    else if at >= line.createdAt + KEPT_FOR_MS then Lapse(NoFirstCardIn30Days)
    else Stay
  }

  function PublishedBy(chosen: Option<Line>): Option<int> {
    match chosen
    case None => None
    case Some(line) => Some(line.publishedAt)
  }

  function FateLines(waiting: set<WaitingLine>, cards: set<CardLine>, chosen: seq<Line>, at: int, promote: bool): set<FateLine> {
    set line, card, one | line in waiting && card in LeftCards(cards, line) && one in LeftChosen(chosen, line)
      :: FateLine(line.account, PublishedBy(one), CaseOf(line, card, one, at, promote))
  }

  // ---- Each relation, against the table ----

  /** The one waiting line an account can have. */
  function WaitingLineOf(w: World, a: Account): WaitingLine
    requires a in w.merchantOf && Key(a, StoreConnected) in w.rows && Key(a, Reg) in w.rows
  {
    WaitingLine(a, w.rows[Key(a, StoreConnected)].createdAt, w.merchantOf[a], w.rows[Key(a, Reg)].state)
  }

  lemma WaitingLinesAre(w: World, skipped: set<Account>, line: WaitingLine)
    ensures line in WaitingLines(w, skipped) <==> InWaiting(w, skipped, line.account) && line == WaitingLineOf(w, line.account)
  {
    if line in WaitingLines(w, skipped) {
      var r, a, reg :| r in w.rows && a in w.merchantOf && reg in w.rows
                       && a == r.account && reg.account == r.account && reg.event.Reg?
                       && r.event.StoreConnected? && w.rows[r].state.Waiting? && r.account !in skipped
                       && line == WaitingLine(r.account, w.rows[r].createdAt, w.merchantOf[a], w.rows[reg].state);
      assert r == Key(a, StoreConnected) && reg == Key(a, Reg);
    }
    if InWaiting(w, skipped, line.account) && line == WaitingLineOf(w, line.account) {
      var r, reg := Key(line.account, StoreConnected), Key(line.account, Reg);
      assert r in w.rows && line.account in w.merchantOf && reg in w.rows;
    }
  }

  /** A merchant has one first card at most, and a waiting account's is its own. */
  lemma FirstCardsAre(w: World, skipped: set<Account>, line: WaitingLine, card: CardLine)
    requires line in WaitingLines(w, skipped)
    ensures card in FirstCards(w, WaitingLines(w, skipped)) && line.merchant == Some(card.merchant)
       <==> line.merchant == Some(card.merchant) && FirstCard(w, line.account) == Some(card.publishedAt)
  {
    WaitingLinesAre(w, skipped, line);
  }

  lemma JoinedAreEligible(w: World, skipped: set<Account>, line: Line)
    ensures line in JoinedCards(w, WaitingLines(w, skipped), FirstCards(w, WaitingLines(w, skipped)))
       <==> Eligible(w, skipped, line.account) && line == LineOf(w, line.account)
  {
    var waiting := WaitingLines(w, skipped);
    var cards := FirstCards(w, waiting);
    if line in JoinedCards(w, waiting, cards) {
      var one, card :| one in waiting && card in cards && one.merchant == Some(card.merchant)
                       && one.createdAt <= card.publishedAt < one.createdAt + KEPT_FOR_MS
                       && !Failed(one.registration) && !Taken(w, card.merchant)
                       && line == Line(card.merchant, one.createdAt, one.account, card.publishedAt);
      WaitingLinesAre(w, skipped, one);
      FirstCardsAre(w, skipped, one, card);
    }
    if Eligible(w, skipped, line.account) && line == LineOf(w, line.account) {
      var one, card := WaitingLineOf(w, line.account), CardLine(line.merchant, line.publishedAt);
      WaitingLinesAre(w, skipped, one);
      FirstCardsAre(w, skipped, one, card);
      assert one in waiting && card in cards;
    }
  }

  lemma JoinedAreRanked(w: World, skipped: set<Account>)
    ensures Ranked(JoinedCards(w, WaitingLines(w, skipped), FirstCards(w, WaitingLines(w, skipped))))
  {
    var lines := JoinedCards(w, WaitingLines(w, skipped), FirstCards(w, WaitingLines(w, skipped)));
    forall one, other | one in lines && other in lines && one != other ensures LineBefore(one, other) || LineBefore(other, one) {
      JoinedAreEligible(w, skipped, one);
      JoinedAreEligible(w, skipped, other);
    }
  }

  /** The lines the query keeps: the joined ones in their order, the first of each merchant. */
  function Chosen(w: World, skipped: set<Account>): seq<Line> {
    JoinedAreRanked(w, skipped);
    var waiting := WaitingLines(w, skipped);
    DistinctOn(OrderedBy(JoinedCards(w, waiting, FirstCards(w, waiting))))
  }

  /** The query keeps exactly the holders' lines: one an account, and none of an account that names no merchant. */
  lemma ChosenAreTheHolders(w: World, skipped: set<Account>, line: Line)
    ensures line in Chosen(w, skipped) <==> Holds(w, skipped, line.account) && line == LineOf(w, line.account)
  {
    var waiting := WaitingLines(w, skipped);
    var joined := JoinedCards(w, waiting, FirstCards(w, waiting));
    JoinedAreRanked(w, skipped);
    OrderedByIsOrdered(joined);
    var lines := OrderedBy(joined);
    forall one ensures one in lines <==> Eligible(w, skipped, one.account) && one == LineOf(w, one.account) {
      JoinedAreEligible(w, skipped, one);
    }
    forall a | Eligible(w, skipped, a) ensures LineOf(w, a) in lines { assert LineOf(w, a).account == a; }
    ChosenIsTheHolder(w, skipped, lines, line.account);
    DistinctOnKeepsFirsts(lines, line);
    if Holds(w, skipped, line.account) && line == LineOf(w, line.account) {
      var one :| one in DistinctOn(lines) && one.account == line.account;
      DistinctOnKeepsFirsts(lines, one);
    }
  }

  /** What the left joins pair a waiting line with: its merchant's first card and its own chosen line, where there are such. */
  lemma LeftJoinsAre(w: World, skipped: set<Account>, line: WaitingLine)
    requires line in WaitingLines(w, skipped)
    ensures LeftCards(FirstCards(w, WaitingLines(w, skipped)), line)
         == {if FirstCard(w, line.account).Some? && line.merchant.Some?
             then Some(CardLine(line.merchant.value, FirstCard(w, line.account).value)) else None}
    ensures LeftChosen(Chosen(w, skipped), line)
         == {if Holds(w, skipped, line.account) then Some(LineOf(w, line.account)) else None}
  {
    LeftCardsAre(w, skipped, line);
    LeftChosenAre(w, skipped, line);
  }

  lemma LeftCardsAre(w: World, skipped: set<Account>, line: WaitingLine)
    requires line in WaitingLines(w, skipped)
    ensures LeftCards(FirstCards(w, WaitingLines(w, skipped)), line)
         == {if FirstCard(w, line.account).Some? && line.merchant.Some?
             then Some(CardLine(line.merchant.value, FirstCard(w, line.account).value)) else None}
  {
    var cards := FirstCards(w, WaitingLines(w, skipped));
    var matching := set card | card in cards && line.merchant == Some(card.merchant) :: Some(card);
    WaitingLinesAre(w, skipped, line);
    forall card: CardLine ensures Some(card) in matching <==> line.merchant == Some(card.merchant) && FirstCard(w, line.account) == Some(card.publishedAt) {
      FirstCardsAre(w, skipped, line, card);
    }
    if FirstCard(w, line.account).Some? {
      var own := CardLine(line.merchant.value, FirstCard(w, line.account).value);
      assert Some(own) in matching;
      assert matching == {Some(own)};
    } else {
      assert forall card: CardLine :: Some(card) !in matching;
      assert None !in matching;
      assert matching == {};
    }
  }

  lemma LeftChosenAre(w: World, skipped: set<Account>, line: WaitingLine)
    requires line in WaitingLines(w, skipped)
    ensures LeftChosen(Chosen(w, skipped), line)
         == {if Holds(w, skipped, line.account) then Some(LineOf(w, line.account)) else None}
  {
    var chosen := Chosen(w, skipped);
    var matching := set one | one in chosen && one.account == line.account :: Some(one);
    forall one | one in chosen ensures Holds(w, skipped, one.account) && one == LineOf(w, one.account) {
      ChosenAreTheHolders(w, skipped, one);
    }
    if Holds(w, skipped, line.account) {
      var own := LineOf(w, line.account);
      ChosenAreTheHolders(w, skipped, own);
      assert Some(own) in matching;
      assert matching == {Some(own)};
    }
  }

  /** What the simple rule decides of an account. */
  function DecidedOf(w: World, at: int, promote: bool, skipped: set<Account>, a: Account): FateLine
    requires InWaiting(w, skipped, a)
  {
    FateLine(a, if Holds(w, skipped, a) then FirstCard(w, a) else None, FateOf(w, at, promote, skipped, a))
  }

  lemma CaseIsTheFate(w: World, at: int, promote: bool, skipped: set<Account>, a: Account, card: Option<CardLine>, chosen: Option<Line>)
    requires InWaiting(w, skipped, a)
    requires card == if FirstCard(w, a).Some? then Some(CardLine(w.merchantOf[a].value, FirstCard(w, a).value)) else None
    requires chosen == if Holds(w, skipped, a) then Some(LineOf(w, a)) else None
    ensures FateLine(a, PublishedBy(chosen), CaseOf(WaitingLineOf(w, a), card, chosen, at, promote))
         == DecidedOf(w, at, promote, skipped, a)
  {
  }

  /** The query's whole answer. */
  function Fates(w: World, at: int, promote: bool, skipped: set<Account>): set<FateLine> {
    var waiting := WaitingLines(w, skipped);
    FateLines(waiting, FirstCards(w, waiting), Chosen(w, skipped), at, promote)
  }

  /** The query's fates: one line for each locked waiting report, and that as the simple rule decides. */
  lemma FatesAreDecided(w: World, at: int, promote: bool, skipped: set<Account>, decided: FateLine)
    ensures decided in Fates(w, at, promote, skipped)
       <==> InWaiting(w, skipped, decided.account) && decided == DecidedOf(w, at, promote, skipped, decided.account)
  {
    var waiting := WaitingLines(w, skipped);
    var cards, chosen := FirstCards(w, waiting), Chosen(w, skipped);
    if decided in FateLines(waiting, cards, chosen, at, promote) {
      var line, card, one :| line in waiting && card in LeftCards(cards, line) && one in LeftChosen(chosen, line)
        && decided == FateLine(line.account, PublishedBy(one), CaseOf(line, card, one, at, promote));
      WaitingLinesAre(w, skipped, line);
      LeftJoinsAre(w, skipped, line);
      CaseIsTheFate(w, at, promote, skipped, line.account, card, one);
    }
    if InWaiting(w, skipped, decided.account) && decided == DecidedOf(w, at, promote, skipped, decided.account) {
      var a := decided.account;
      var line := WaitingLineOf(w, a);
      var card := if FirstCard(w, a).Some? then Some(CardLine(w.merchantOf[a].value, FirstCard(w, a).value)) else None;
      var one := if Holds(w, skipped, a) then Some(LineOf(w, a)) else None;
      WaitingLinesAre(w, skipped, line);
      LeftJoinsAre(w, skipped, line);
      CaseIsTheFate(w, at, promote, skipped, a, card, one);
      assert line in waiting && card in LeftCards(cards, line) && one in LeftChosen(chosen, line);
    }
  }

  /** What the update sets, where there is a fate; the date is the one the query found for the chosen. */
  function Updated(row: Row, decided: FateLine, at: int): Row
    requires !decided.fate.Stay?
  {
    row.(
      state := (match decided.fate case Due => Pending case Late => GivenUp case Lapse(_) => Lapsed case Stay => row.state),
      click := if decided.fate.Due? then row.click else None,
      eventAt := if decided.fate.Due? || decided.fate.Late? then decided.publishedAt else None,
      nextAttemptAt := if decided.fate.Due? then Some(at) else None,
      lastOutcome := if decided.fate.Lapse? then Some(LapsedFor(decided.fate.reason)) else None,
      settledAt := if decided.fate.Due? then None else Some(at))
  }

  lemma UpdatedAsFated(w: World, at: int, promote: bool, skipped: set<Account>, a: Account, row: Row)
    requires InWaiting(w, skipped, a) && !FateOf(w, at, promote, skipped, a).Stay?
    ensures Updated(row, DecidedOf(w, at, promote, skipped, a), at) == WithFate(row, FateOf(w, at, promote, skipped, a), FirstCard(w, a), at)
  {
  }

  lemma UpdatedIsWritten(w: World, at: int, promote: bool, skipped: set<Account>, decided: FateLine)
    requires decided in Fates(w, at, promote, skipped) && !decided.fate.Stay?
    ensures var k := Key(decided.account, StoreConnected);
            && k in w.rows && k in SettleWrites(w, at, promote, skipped)
            && Updated(w.rows[k], decided, at) == SettleWrites(w, at, promote, skipped)[k]
  {
    FatesAreDecided(w, at, promote, skipped, decided);
    UpdatedAsFated(w, at, promote, skipped, decided.account, w.rows[Key(decided.account, StoreConnected)]);
  }

  lemma WrittenIsDecided(w: World, at: int, promote: bool, skipped: set<Account>, k: Key)
    requires k in SettleWrites(w, at, promote, skipped)
    ensures exists decided | decided in Fates(w, at, promote, skipped) :: !decided.fate.Stay? && k == Key(decided.account, StoreConnected)
  {
    var decided := DecidedOf(w, at, promote, skipped, k.account);
    FatesAreDecided(w, at, promote, skipped, decided);
    assert k == Key(decided.account, StoreConnected);
  }

  /** The update a query's answer makes, a line at a time in whatever order. */
  method UpdateFrom(rows: map<Key, Row>, fates: set<FateLine>, at: int, ghost all: map<Key, Row>) returns (writes: map<Key, Row>)
    requires forall one | one in fates && !one.fate.Stay? ::
               var k := Key(one.account, StoreConnected);
               k in rows && k in all && Updated(rows[k], one, at) == all[k]
    requires forall k | k in all :: exists one | one in fates :: !one.fate.Stay? && k == Key(one.account, StoreConnected)
    ensures writes == all
  {
    var rest := fates;
    writes := map[];
    while rest != {}
      invariant rest <= fates
      invariant forall k | k in writes :: k in all && writes[k] == all[k]
      invariant forall one | one in fates && one !in rest && !one.fate.Stay? :: Key(one.account, StoreConnected) in writes
      decreases rest
    {
      var one :| one in rest;
      rest := rest - {one};
      if !one.fate.Stay? {
        var k := Key(one.account, StoreConnected);
        writes := writes[k := Updated(rows[k], one, at)];
      }
    }
  }

  /** The whole statement writes what the simple rule says, and nothing else. */
  method SettlingUpdate(w: World, at: int, promote: bool, skipped: set<Account>) returns (writes: map<Key, Row>)
    ensures writes == SettleWrites(w, at, promote, skipped)
  {
    var fates := Fates(w, at, promote, skipped);
    forall one | one in fates && !one.fate.Stay?
      ensures var k := Key(one.account, StoreConnected);
              && k in w.rows && k in SettleWrites(w, at, promote, skipped)
              && Updated(w.rows[k], one, at) == SettleWrites(w, at, promote, skipped)[k]
    {
      UpdatedIsWritten(w, at, promote, skipped, one);
    }
    forall k | k in SettleWrites(w, at, promote, skipped)
      ensures exists one | one in fates :: !one.fate.Stay? && k == Key(one.account, StoreConnected)
    {
      WrittenIsDecided(w, at, promote, skipped, k);
    }
    writes := UpdateFrom(w.rows, fates, at, SettleWrites(w, at, promote, skipped));
  }
}
