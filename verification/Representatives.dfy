/** Which of a page's links stand for its site: two at most, one for each page, the best of them. */
module Representatives {
  import opened Options
  import opened NetworkPolicy
  import opened NetworkRequests

  const LINKS_READ := 2_000
  const AT_MOST := 2

  /** What the page's own words for its paths say, and the order of the locale. */
  datatype Taste = Taste(
    isContent: string -> bool,
    isHinted: string -> bool,
    compare: (string, string) -> int)

  // ---- Keys and ranks ----

  function StripSlashes(path: string): string {
    if path != "" && path[|path| - 1] == '/' then StripSlashes(path[..|path| - 1]) else path
  }

  function HostAndPort(url: Url): string {
    url.hostname + (if url.port == "" then "" else ":" + url.port)
  }

  function PageKey(url: Url): string {
    var path := StripSlashes(url.path);
    url.protocol + "//" + HostAndPort(url) + (if path == "" then "/" else path)
  }

  /** The parts of a path between its slashes that hold anything. */
  function Segments(path: string, open: bool): nat {
    if path == "" then (if open then 1 else 0)
    else if path[0] == '/' then (if open then 1 else 0) + Segments(path[1..], false)
    else Segments(path[1..], true)
  }

  function Rank(taste: Taste, url: Url): nat {
    (if taste.isHinted(url.path) then 100 else 0) + Segments(url.path, false) * 10
  }

  /** A page a link stands for, and the key it shares with the links to the same page. */
  datatype Link = Link(key: string, url: Url)

  /** Negative where the one comes first. */
  function Order(net: Net, taste: Taste): (Link, Link) -> int {
    (one: Link, other: Link) => OrderOf(net, taste, one.url, other.url)
  }

  function OrderOf(net: Net, taste: Taste, one: Url, other: Url): int {
    if Rank(taste, other) != Rank(taste, one) then Rank(taste, other) - Rank(taste, one)
    else taste.compare(net.text(one), net.text(other))
  }

  /** Parts are counted on either side of a slash; what holds no slash is one part, if it holds anything. */
  lemma {:induction false} PartsAreCounted(path: string, rest: string, open: bool)
    ensures Segments(path + "/" + rest, open) == Segments(path, open) + Segments(rest, false)
    ensures '/' !in rest ==> Segments(rest, open) == if rest == "" && !open then 0 else 1
    decreases |path| + |rest|
  {
    var whole := path + "/" + rest;
    if path == "" {
      assert whole[1..] == rest;
    } else {
      assert whole[1..] == path[1..] + "/" + rest;
      PartsAreCounted(path[1..], rest, path[0] != '/');
    }
    if rest != "" && '/' !in rest { PartsAreCounted("", rest[1..], true); }
  }

  /**
   * Of two pages the hinted one comes first where their paths have as many parts, and the one of more parts where
   * both or neither are hinted; a hint outweighs nine parts more and no ten. Level in that, the locale decides.
   */
  lemma HintedAndLongerFirst(net: Net, taste: Taste, one: Url, other: Url)
    ensures var first, parts, others := OrderOf(net, taste, one, other), Segments(one.path, false), Segments(other.path, false);
            var hinted, hintedOther := taste.isHinted(one.path), taste.isHinted(other.path);
            && (parts == others && hinted && !hintedOther ==> first < 0)
            && (parts > others && hinted == hintedOther ==> first < 0)
            && (hinted && !hintedOther && others < parts + 10 ==> first < 0)
            && (hinted && !hintedOther && others > parts + 10 ==> first > 0)
            && (hinted && !hintedOther && others == parts + 10 ==> first == taste.compare(net.text(one), net.text(other)))
            && (parts == others && hinted == hintedOther ==> first == taste.compare(net.text(one), net.text(other)))
  {
  }

  lemma {:induction false} SlashesGo(bare: string, slashes: string)
    requires (bare == "" || bare[|bare| - 1] != '/') && forall c | c in slashes :: c == '/'
    ensures StripSlashes(bare + slashes) == bare
    decreases |slashes|
  {
    if slashes == "" {
      assert bare + slashes == bare;
    } else {
      var path := bare + slashes;
      assert path[|path| - 1] == slashes[|slashes| - 1] && slashes[|slashes| - 1] in slashes;
      var fewer := slashes[..|slashes| - 1];
      assert path[..|path| - 1] == bare + fewer;
      forall c | c in fewer ensures c == '/' { assert c in slashes; }
      SlashesGo(bare, fewer);
    }
  }

  /** Two addresses are of one page where their protocols, hosts, ports and paths agree, closing slashes aside: the key says these. */
  lemma KeySaysThePage(url: Url, bare: string, slashes: string)
    requires url.path == bare + slashes && (bare == "" || bare[|bare| - 1] != '/') && forall c | c in slashes :: c == '/'
    ensures PageKey(url) == url.protocol + "//" + url.hostname
              + (if url.port != "" then ":" + url.port else []) + (if bare != "" then bare else "/")
  {
    SlashesGo(bare, slashes);
    var at := url.hostname + (if url.port != "" then ":" + url.port else []);
    assert HostAndPort(url) == at;
    assert url.protocol + "//" + at == url.protocol + "//" + url.hostname + (if url.port != "" then ":" + url.port else []);
  }

  /** The locale orders texts as any order does. */
  ghost predicate Collates(taste: Taste) {
    && (forall a, b :: taste.compare(a, b) <= 0 <==> taste.compare(b, a) >= 0)
    && (forall a, b, c :: taste.compare(a, b) <= 0 && taste.compare(b, c) <= 0 ==> taste.compare(a, c) <= 0)
  }

  // ---- Candidates ----

  /** The page a link stands for, where it may. */
  function CandidateOf(net: Net, taste: Taste, raw: string, base: Url, domain: string): Option<Link> {
    match net.resolve(raw, base)
    case None => None
    case Some(parsed) =>
      if parsed.search != "" || parsed.hash != "" then None
      else if base.protocol == "https:" && parsed.protocol != "https:" then None
      else
        match InspectRequest(net, net.text(parsed), "GET", true, domain, None)
        case Refused(_) => None
        case Allowed(url) =>
          if url.path == "/" || !taste.isContent(url.path) || PageKey(url) == PageKey(base) then None
          else Some(Link(PageKey(url), url))
  }

  /**
   * A link stands for a page exactly where it reads as an address without query and fragment, does not leave https,
   * may be navigated to, and names a page of content that is neither the site's root nor the page it stands on.
   */
  lemma CandidatesAreJudged(net: Net, taste: Taste, raw: string, base: Url, domain: string)
    requires Faithful(net)
    ensures var candidate := CandidateOf(net, taste, raw, base, domain);
            && (candidate.Some? <==>
                  && net.resolve(raw, base).Some?
                  && var url := net.resolve(raw, base).value;
                     && url.search == "" && url.hash == "" && (base.protocol == "https:" ==> url.protocol == "https:")
                     && MayNavigate(net, url, domain) && url.path != "/" && taste.isContent(url.path) && PageKey(url) != PageKey(base))
            && (candidate.Some? ==> candidate.value == Link(PageKey(net.resolve(raw, base).value), net.resolve(raw, base).value))
  {
    if net.resolve(raw, base).Some? { NavigatesWhereItMay(net, net.resolve(raw, base).value, domain); }
  }

  /** What each link stands for, in turn. */
  function MetBy(net: Net, taste: Taste, raws: seq<string>, base: Url, domain: string): seq<Option<Link>> {
    seq(|raws|, i requires 0 <= i < |raws| => CandidateOf(net, taste, raws[i], base, domain))
  }

  /** The links' pages by key: each key where it was first met, with the page it was last met by. */
  datatype Candidates = Candidates(keys: seq<string>, pages: map<string, Url>)

  function Met(candidates: Candidates, link: Link): Candidates {
    Candidates(if link.key in candidates.pages then candidates.keys else candidates.keys + [link.key],
               candidates.pages[link.key := link.url])
  }

  predicate Apart(keys: seq<string>) {
    forall i, j | 0 <= i < j < |keys| :: keys[i] != keys[j]
  }

  predicate LastOfKey(met: seq<Option<Link>>, link: Link, i: int) {
    && 0 <= i < |met| && met[i] == Some(link)
    && forall j | i < j < |met| && met[j].Some? :: met[j].value.key != link.key
  }

  /** Whether a page is what the last link of its key stands for. */
  ghost predicate Last(met: seq<Option<Link>>, link: Link) {
    exists i :: LastOfKey(met, link, i)
  }

  /** Of every key the links met, once, the page the last of them stands for. */
  ghost predicate Gathered(met: seq<Option<Link>>, candidates: Candidates) {
    && Apart(candidates.keys)
    && (forall key :: key in candidates.keys <==> key in candidates.pages)
    && (forall key | key in candidates.pages :: Last(met, Link(key, candidates.pages[key])))
    && (forall i | 0 <= i < |met| && met[i].Some? :: met[i].value.key in candidates.pages)
  }

  lemma LastStays(met: seq<Option<Link>>, one: Option<Link>, link: Link)
    requires Last(met, link) && (one.Some? ==> one.value.key != link.key)
    ensures Last(met + [one], link)
  {
    var i :| LastOfKey(met, link, i);
    assert LastOfKey(met + [one], link, i);
  }

  lemma OneMoreMet(met: seq<Option<Link>>, one: Option<Link>, candidates: Candidates)
    requires Gathered(met, candidates)
    ensures Gathered(met + [one], if one.None? then candidates else Met(candidates, one.value))
  {
    var now := if one.None? then candidates else Met(candidates, one.value);
    forall key | key in now.pages ensures Last(met + [one], Link(key, now.pages[key])) {
      if one.Some? && key == one.value.key {
        assert LastOfKey(met + [one], one.value, |met|);
      } else {
        LastStays(met, one, Link(key, now.pages[key]));
      }
    }
  }

  function LinksOf(candidates: Candidates): seq<Link>
    requires forall key | key in candidates.keys :: key in candidates.pages
  {
    seq(|candidates.keys|, i requires 0 <= i < |candidates.keys| =>
      assert candidates.keys[i] in candidates.keys;
      Link(candidates.keys[i], candidates.pages[candidates.keys[i]]))
  }

  // ---- The best of them ----

  function Insert(order: (Link, Link) -> int, links: seq<Link>, link: Link): seq<Link> {
    if links != [] && order(link, links[|links| - 1]) < 0
    then Insert(order, links[..|links| - 1], link) + [links[|links| - 1]]
    else links + [link]
  }

  function Sorted(order: (Link, Link) -> int, links: seq<Link>): seq<Link> {
    if links == [] then [] else Insert(order, Sorted(order, links[..|links| - 1]), links[|links| - 1])
  }

  lemma {:induction false} InsertKeeps(order: (Link, Link) -> int, links: seq<Link>, link: Link)
    ensures multiset(Insert(order, links, link)) == multiset(links) + multiset{link}
  {
    if links != [] {
      var last := |links| - 1;
      assert links == links[..last] + [links[last]];
      InsertKeeps(order, links[..last], link);
    }
  }

  lemma {:induction false} SortedKeeps(order: (Link, Link) -> int, links: seq<Link>)
    ensures multiset(Sorted(order, links)) == multiset(links)
  {
    if links != [] {
      var last := |links| - 1;
      assert links == links[..last] + [links[last]];
      SortedKeeps(order, links[..last]);
      InsertKeeps(order, Sorted(order, links[..last]), links[last]);
    }
  }

  predicate InOrder(order: (Link, Link) -> int, links: seq<Link>) {
    forall i, j | 0 <= i < j < |links| :: order(links[i], links[j]) <= 0
  }

  predicate Flips(order: (Link, Link) -> int, a: Link, b: Link) {
    order(a, b) >= 0 ==> order(b, a) <= 0
  }

  predicate Leads(order: (Link, Link) -> int, a: Link, b: Link, c: Link) {
    order(a, b) <= 0 && order(b, c) <= 0 ==> order(a, c) <= 0
  }

  ghost predicate Total(order: (Link, Link) -> int) {
    (forall a, b :: Flips(order, a, b)) && (forall a, b, c :: Leads(order, a, b, c))
  }

  lemma OrderIsTotal(net: Net, taste: Taste)
    requires Collates(taste)
    ensures Total(Order(net, taste))
  {
    var order := Order(net, taste);
    forall a, b ensures Flips(order, a, b) {
      assert order(a, b) == OrderOf(net, taste, a.url, b.url) && order(b, a) == OrderOf(net, taste, b.url, a.url);
      assert taste.compare(net.text(b.url), net.text(a.url)) <= 0 <==> taste.compare(net.text(a.url), net.text(b.url)) >= 0;
    }
    forall a, b, c ensures Leads(order, a, b, c) {
      assert order(a, b) == OrderOf(net, taste, a.url, b.url) && order(b, c) == OrderOf(net, taste, b.url, c.url);
      assert order(a, c) == OrderOf(net, taste, a.url, c.url);
      if order(a, b) <= 0 && order(b, c) <= 0 { OrdersThrough(net, taste, a.url, b.url, c.url); }
    }
  }

  lemma OrdersThrough(net: Net, taste: Taste, a: Url, b: Url, c: Url)
    requires Collates(taste) && OrderOf(net, taste, a, b) <= 0 && OrderOf(net, taste, b, c) <= 0
    ensures OrderOf(net, taste, a, c) <= 0
  {
  }

  predicate AllBefore(order: (Link, Link) -> int, links: seq<Link>, link: Link) {
    forall i | 0 <= i < |links| :: order(links[i], link) <= 0
  }

  lemma {:induction false} InsertHolds(order: (Link, Link) -> int, links: seq<Link>, link: Link)
    ensures forall one :: one in Insert(order, links, link) <==> one == link || one in links
  {
    if links != [] {
      InsertHolds(order, links[..|links| - 1], link);
      assert links == links[..|links| - 1] + [links[|links| - 1]];
    }
  }

  lemma InsertedBefore(order: (Link, Link) -> int, links: seq<Link>, link: Link, last: Link, inserted: seq<Link>)
    requires inserted == Insert(order, links, link) && AllBefore(order, links, last) && order(link, last) <= 0
    ensures AllBefore(order, inserted, last)
  {
    InsertHolds(order, links, link);
    forall i | 0 <= i < |inserted| ensures order(inserted[i], last) <= 0 {
      assert inserted[i] in inserted;
    }
  }

  lemma AllBehind(order: (Link, Link) -> int, links: seq<Link>, link: Link)
    requires Total(order) && InOrder(order, links) && links != [] && order(link, links[|links| - 1]) >= 0
    ensures AllBefore(order, links, link)
  {
    var last := links[|links| - 1];
    assert Flips(order, link, last);
    forall i | 0 <= i < |links| ensures order(links[i], link) <= 0 {
      assert Leads(order, links[i], last, link);
    }
  }

  lemma {:induction false} InsertedInOrder(order: (Link, Link) -> int, links: seq<Link>, link: Link)
    requires Total(order) && InOrder(order, links)
    ensures InOrder(order, Insert(order, links, link))
  {
    if links != [] {
      var rest, last := links[..|links| - 1], links[|links| - 1];
      if order(link, last) < 0 {
        InsertedInOrder(order, rest, link);
        InsertedBefore(order, rest, link, last, Insert(order, rest, link));
      } else {
        AllBehind(order, links, link);
      }
    }
  }

  lemma {:induction false} SortedInOrder(order: (Link, Link) -> int, links: seq<Link>)
    requires Total(order)
    ensures InOrder(order, Sorted(order, links))
  {
    if links != [] {
      SortedInOrder(order, links[..|links| - 1]);
      InsertedInOrder(order, Sorted(order, links[..|links| - 1]), links[|links| - 1]);
    }
  }

  // ---- The choice ----

  function Min(a: nat, b: nat): nat { if a <= b then a else b }

  /** Two of the links' pages at most, each what the last link of its key stands for, no two of one key. */
  ghost predicate Chosen(met: seq<Option<Link>>, chosen: seq<Link>) {
    && |chosen| <= 2
    && (forall link | link in chosen :: Last(met, link))
    && (forall i, j | 0 <= i < j < |chosen| :: chosen[i].key != chosen[j].key)
  }

  /** No page that could stand for its key is left out for one behind it, and none while there is room. */
  ghost predicate BestOf(order: (Link, Link) -> int, met: seq<Option<Link>>, chosen: seq<Link>, limit: nat) {
    && InOrder(order, chosen)
    && forall link | Last(met, link) && link !in chosen ::
         (|chosen| == 2 || |chosen| == limit) && forall one | one in chosen :: order(one, link) <= 0
  }

  method SelectRepresentativeUrls(net: Net, taste: Taste, rawUrls: seq<string>, base: Url, domain: string, limit: nat)
    returns (chosen: seq<Link>)
    requires Collates(taste)
    ensures var met := MetBy(net, taste, if |rawUrls| > 2_000 then rawUrls[..2_000] else rawUrls, base, domain);
            |chosen| <= limit && Chosen(met, chosen) && BestOf(Order(net, taste), met, chosen, limit)
  {
    var raws := if |rawUrls| > LINKS_READ then rawUrls[..LINKS_READ] else rawUrls;
    ghost var met := MetBy(net, taste, raws, base, domain);
    var candidates := Candidates([], map[]);
    for i := 0 to |raws|
      invariant Gathered(met[..i], candidates)
    {
      var one := CandidateOf(net, taste, raws[i], base, domain);
      candidates := AddTo(met[..i], one, candidates);
      assert met[..i + 1] == met[..i] + [one];
    }
    assert met[..|raws|] == met;
    chosen := Best(net, taste, met, candidates, limit);
  }

  method AddTo(ghost met: seq<Option<Link>>, one: Option<Link>, candidates: Candidates) returns (now: Candidates)
    requires Gathered(met, candidates)
    ensures Gathered(met + [one], now)
  {
    OneMoreMet(met, one, candidates);
    now := if one.None? then candidates else Met(candidates, one.value);
  }

  method Best(net: Net, taste: Taste, ghost met: seq<Option<Link>>, candidates: Candidates, limit: nat) returns (chosen: seq<Link>)
    requires Collates(taste) && Gathered(met, candidates)
    ensures |chosen| <= limit && Chosen(met, chosen) && BestOf(Order(net, taste), met, chosen, limit)
  {
    var links, order := LinksOf(candidates), Order(net, taste);
    var sorted := Sorted(order, links);
    OrderIsTotal(net, taste);
    SortedInOrder(order, links);
    SortedKeeps(order, links);
    chosen := sorted[..Min(|sorted|, Min(AT_MOST, limit))];
    LinksApart(met, candidates, links);
    ChosenWell(order, met, links, sorted, chosen, limit);
  }

  lemma SortedApart(links: seq<Link>, sorted: seq<Link>, i: nat, j: nat)
    requires multiset(sorted) == multiset(links) && i < j < |sorted|
    requires forall a, b | 0 <= a < b < |links| :: links[a].key != links[b].key
    ensures sorted[i].key != sorted[j].key
  {
    if sorted[i].key == sorted[j].key {
      assert sorted[i] in multiset(sorted) && sorted[j] in multiset(sorted);
      var a :| 0 <= a < |links| && links[a] == sorted[i];
      var b :| 0 <= b < |links| && links[b] == sorted[j];
      assert sorted[i] == sorted[j];
      TwiceCounted(sorted, i, j);
      OnceCounted(links, a);
    }
  }

  lemma TwiceCounted(links: seq<Link>, i: nat, j: nat)
    requires i < j < |links| && links[i] == links[j]
    ensures multiset(links)[links[i]] >= 2
  {
    assert links == links[..j] + [links[j]] + links[j + 1..];
    assert links[i] == links[..j][i] && links[i] in multiset(links[..j]);
  }

  lemma OnceCounted(links: seq<Link>, a: nat)
    requires a < |links| && forall b | 0 <= b < |links| && b != a :: links[b] != links[a]
    ensures multiset(links)[links[a]] == 1
  {
    assert links == links[..a] + [links[a]] + links[a + 1..];
    assert links[a] !in links[..a] && links[a] !in links[a + 1..];
  }

  lemma LinksApart(met: seq<Option<Link>>, candidates: Candidates, links: seq<Link>)
    requires Gathered(met, candidates) && links == LinksOf(candidates)
    ensures forall a, b | 0 <= a < b < |links| :: links[a].key != links[b].key
    ensures forall link :: link in links <==> Last(met, link)
  {
    forall i | 0 <= i < |links| ensures links[i].key == candidates.keys[i] && Last(met, links[i]) {
      assert candidates.keys[i] in candidates.keys;
    }
    forall link | Last(met, link) ensures link in links {
      var i :| LastOfKey(met, link, i);
      assert link.key in candidates.pages && link.key in candidates.keys;
      var k :| 0 <= k < |candidates.keys| && candidates.keys[k] == link.key;
      OneLast(met, link, links[k]);
    }
  }

  lemma OneLast(met: seq<Option<Link>>, one: Link, other: Link)
    requires Last(met, one) && Last(met, other) && one.key == other.key
    ensures one == other
  {
    var i :| LastOfKey(met, one, i);
    var j :| LastOfKey(met, other, j);
    assert i == j;
  }

  lemma SameHeld(links: seq<Link>, sorted: seq<Link>)
    requires multiset(sorted) == multiset(links)
    ensures forall link :: link in sorted <==> link in links
  {
    forall link ensures link in sorted <==> link in links {
      assert link in sorted <==> link in multiset(sorted);
      assert link in links <==> link in multiset(links);
    }
  }

  lemma ChosenWell(order: (Link, Link) -> int, met: seq<Option<Link>>, links: seq<Link>, sorted: seq<Link>, chosen: seq<Link>, limit: nat)
    requires forall a, b | 0 <= a < b < |links| :: links[a].key != links[b].key
    requires forall link :: link in links <==> Last(met, link)
    requires multiset(sorted) == multiset(links) && InOrder(order, sorted)
    requires chosen == sorted[..Min(|sorted|, Min(AT_MOST, limit))]
    ensures Chosen(met, chosen) && BestOf(order, met, chosen, limit)
  {
    SameHeld(links, sorted);
    forall i, j | 0 <= i < j < |chosen| ensures chosen[i].key != chosen[j].key {
      SortedApart(links, sorted, i, j);
    }
    forall link | Last(met, link) && link !in chosen
      ensures |chosen| == Min(AT_MOST, limit) && forall one | one in chosen :: order(one, link) <= 0
    {
      var rest := sorted[|chosen|..];
      assert sorted == chosen + rest;
      var k :| 0 <= k < |rest| && rest[k] == link;
      assert sorted[|chosen| + k] == link;
    }
  }

  /** Every page chosen is one that can be observed, and not the page it was found on. */
  lemma ChosenAreObservable(net: Net, taste: Taste, raws: seq<string>, base: Url, domain: string, link: Link)
    requires Faithful(net) && Last(MetBy(net, taste, raws, base, domain), link)
    ensures Observable(net, link.url, domain) && link.key == PageKey(link.url) != PageKey(base)
    ensures base.protocol == "https:" ==> link.url.protocol == "https:"
  {
    var i :| LastOfKey(MetBy(net, taste, raws, base, domain), link, i);
    var parsed := net.resolve(raws[i], base).value;
    NavigationStaysOnDomain(net, net.text(parsed), "GET", domain, None);
  }
}
