/**
 * Three ranks of a public entry: its position on the leaderboard (`getLeaderboard` in
 * internal/httpapi/content_handlers.go), the rank on its share card (`GetShareData` in
 * internal/store/social.go) and the `rank()` that decides challenge wins
 * (`GetPublicUserStats` in internal/store/analysis.go).
 */
module Ranks {
  import opened Prelude
  import opened Submissions

  /** A submission row; `score` counts hundredths, as `numeric(4,2)` does. */
  datatype Entry = Entry(
    id: int, challenge: int, user: int, score: int, createdAt: int, verification: Verification, moderation: Moderation)

  predicate Public(e: Entry) { e.verification == Passed && e.moderation == Approved }

  /** `a` precedes `b` under `style_score DESC, created_at ASC`. */
  predicate Better(a: Entry, b: Entry) {
    a.score > b.score || (a.score == b.score && a.createdAt < b.createdAt)
  }

  predicate Peers(a: Entry, b: Entry) { a.score == b.score && a.createdAt == b.createdAt }

  function Contenders(rows: set<Entry>, challenge: int): set<Entry> {
    set e | e in rows && e.challenge == challenge && Public(e)
  }

  /** Neither user has blocked the other. */
  predicate Unblocked(blocks: set<(int, int)>, viewer: Option<int>, user: int) {
    viewer.None? || ((viewer.value, user) !in blocks && (user, viewer.value) !in blocks)
  }

  /** The rows that `ListChallengeSubmissions` selects for a viewer. */
  function Visible(rows: set<Entry>, challenge: int, blocks: set<(int, int)>, viewer: Option<int>): set<Entry> {
    set e | e in Contenders(rows, challenge) && Unblocked(blocks, viewer, e.user)
  }

  function Above(s: set<Entry>, e: Entry): set<Entry> {
    set o | o in s && Better(o, e)
  }

  /** `1 + count(*)` over the better public entries of the challenge. */
  function ShareRank(rows: set<Entry>, e: Entry): nat {
    1 + |Above(Contenders(rows, e.challenge), e)|
  }

  // ----- orderings -----

  predicate Distinct(order: seq<Entry>) {
    forall i, j :: 0 <= i < j < |order| ==> order[i] != order[j]
  }

  predicate Sorted(order: seq<Entry>) {
    forall i, j :: 0 <= i < j < |order| ==> !Better(order[j], order[i])
  }

  /** `order` is a result that `ORDER BY style_score DESC, created_at ASC` may give for the rows `s`. */
  ghost predicate Ordering(order: seq<Entry>, s: set<Entry>) {
    Distinct(order) && Sorted(order) && (forall e :: e in s <==> e in order)
  }

  ghost predicate NoTies(s: set<Entry>) {
    forall a, b :: a in s && b in s && a != b ==> !Peers(a, b)
  }

  function Elements(order: seq<Entry>): set<Entry> {
    set e | e in order
  }

  lemma {:induction false} ElementsSize(order: seq<Entry>)
    requires Distinct(order)
    ensures |Elements(order)| == |order|
  {
    if order != [] {
      var rest := order[..|order| - 1];
      ElementsSize(rest);
      assert Elements(order) == Elements(rest) + {order[|order| - 1]};
    }
  }

  /** `rank()` of the `i`th row of an ordering: the position of the first of its peers. */
  function SqlRank(order: seq<Entry>, i: nat): (r: nat)
    requires i < |order|
    ensures 1 <= r <= i + 1
  {
    if i > 0 && Peers(order[i - 1], order[i]) then SqlRank(order, i - 1) else i + 1
  }

  lemma {:induction false} FirstPeer(order: seq<Entry>, i: nat)
    requires i < |order| && Sorted(order)
    ensures forall j :: SqlRank(order, i) - 1 <= j <= i ==> Peers(order[j], order[i])
    ensures forall j :: 0 <= j < SqlRank(order, i) - 1 ==> Better(order[j], order[i])
  {
    if i > 0 && Peers(order[i - 1], order[i]) {
      FirstPeer(order, i - 1);
    } else if i > 0 {
      assert !Better(order[i], order[i - 1]);
      assert Better(order[i - 1], order[i]);
    }
  }

  /** In any ordering of any set of rows, `rank()` is one plus the number of better rows. */
  lemma RankCountsBetter(order: seq<Entry>, s: set<Entry>, i: nat)
    requires Ordering(order, s) && i < |order|
    ensures SqlRank(order, i) == 1 + |Above(s, order[i])|
  {
    var first := SqlRank(order, i) - 1;
    FirstPeer(order, i);
    ElementsSize(order[..first]);
    forall e
      ensures e in Above(s, order[i]) <==> e in Elements(order[..first])
    {
      if e in Above(s, order[i]) {
        var j :| 0 <= j < |order| && order[j] == e;
        assert j < first;
      }
    }
    assert Above(s, order[i]) == Elements(order[..first]);
  }

  /** The share card and `rank()` agree on every public entry, ties included. */
  lemma ShareRankIsSqlRank(rows: set<Entry>, challenge: int, order: seq<Entry>, i: nat)
    requires Ordering(order, Contenders(rows, challenge)) && i < |order|
    ensures ShareRank(rows, order[i]) == SqlRank(order, i)
  {
    assert order[i] in Contenders(rows, challenge);
    RankCountsBetter(order, Contenders(rows, challenge), i);
  }

  /** A challenge is won by exactly the entries that no public entry beats. */
  lemma WinnersAreUnbeaten(rows: set<Entry>, challenge: int, order: seq<Entry>, i: nat)
    requires Ordering(order, Contenders(rows, challenge)) && i < |order|
    ensures SqlRank(order, i) == 1 <==>
            forall e ::
              e in rows && e.challenge == challenge && e.verification == Passed && e.moderation == Approved ==>
                e.score < order[i].score || (e.score == order[i].score && order[i].createdAt <= e.createdAt)
  {
    RankCountsBetter(order, Contenders(rows, challenge), i);
    var above := Above(Contenders(rows, challenge), order[i]);
    if above != {} {
      var e := Pick(above);
      assert e in rows && Better(e, order[i]);
    } else {
      forall e | e in rows && e.challenge == challenge && e.verification == Passed && e.moderation == Approved
        ensures !Better(e, order[i])
      {
        assert e !in above;
      }
    }
  }

  /** The share card counts the public rows of the challenge with a higher score, or with as high a one and earlier. */
  lemma ShareRankCounts(rows: set<Entry>, e: Entry)
    ensures var ahead := set o | && o in rows && o.challenge == e.challenge
                                 && o.verification == Passed && o.moderation == Approved
                                 && (o.score > e.score || (o.score == e.score && o.createdAt < e.createdAt));
            ShareRank(rows, e) == 1 + |ahead|
  {
    var ahead := set o | && o in rows && o.challenge == e.challenge
                         && o.verification == Passed && o.moderation == Approved
                         && (o.score > e.score || (o.score == e.score && o.createdAt < e.createdAt));
    assert ahead == Above(Contenders(rows, e.challenge), e);
  }

  // ----- the leaderboard -----

  /** `pagination`: unparsable or out-of-range values fall back to the defaults. */
  method Pagination(limitText: Option<int>, offsetText: Option<int>) returns (limit: int, offset: int)
    ensures 1 <= limit <= 100 && 0 <= offset
    ensures limitText.Some? && 1 <= limitText.value <= 100 ==> limit == limitText.value
    ensures limitText.Some? && limitText.value > 100 ==> limit == 100
    ensures limitText.None? || limitText.value <= 0 ==> limit == 20
    ensures offset == if offsetText.Some? && offsetText.value >= 0 then offsetText.value else 0
  {
    limit := 20;
    offset := 0;
    if limitText.Some? && limitText.value > 0 {
      limit := if limitText.value < 100 then limitText.value else 100;
    }
    if offsetText.Some? && offsetText.value >= 0 {
      offset := offsetText.value;
    }
  }

  datatype Placed = Placed(rank: int, entry: Entry)

  /** `LIMIT limit OFFSET offset`. */
  function Page(order: seq<Entry>, limit: nat, offset: nat): seq<Entry> {
    var rest := if offset <= |order| then order[offset..] else [];
    if limit <= |rest| then rest[..limit] else rest
  }

  /** The page holds the rows of its range of the listing, each with its position in the whole listing. */
  predicate Shows(entries: seq<Placed>, order: seq<Entry>, limit: int, offset: int) {
    && |entries| == Max(0, if limit < |order| - offset then limit else |order| - offset)
    && (forall k :: 0 <= k < |entries| ==> PlacedAt(entries[k], order, offset + k))
  }

  predicate PlacedAt(p: Placed, order: seq<Entry>, i: int) {
    0 <= i < |order| && p == Placed(i + 1, order[i])
  }

  method GetLeaderboard(order: seq<Entry>, limitText: Option<int>, offsetText: Option<int>)
    returns (entries: seq<Placed>, limit: int, offset: int)
    ensures 1 <= limit <= 100 && 0 <= offset && Shows(entries, order, limit, offset)
  {
    limit, offset := Pagination(limitText, offsetText);
    var submissions := Page(order, limit, offset);
    entries := [];
    for index := 0 to |submissions|
      invariant |entries| == index
      invariant forall k :: 0 <= k < index ==> PlacedAt(entries[k], order, offset + k)
    {
      entries := entries + [Placed(offset + index + 1, submissions[index])];
    }
  }

  /**
   * A listing holds exactly the passed and approved rows of the challenge whose user and
   * the viewer have not blocked each other, the highest score first and the earlier one
   * of equal scores.
   */
  lemma ListingShows(
    rows: set<Entry>, challenge: int, blocks: set<(int, int)>, viewer: Option<int>, order: seq<Entry>, e: Entry)
    requires Ordering(order, Visible(rows, challenge, blocks, viewer))
    ensures e in order <==>
            && e in rows && e.challenge == challenge && e.verification == Passed && e.moderation == Approved
            && (viewer.Some? ==> (viewer.value, e.user) !in blocks && (e.user, viewer.value) !in blocks)
    ensures forall i, j :: 0 <= i < j < |order| ==>
              && order[i] != order[j]
              && (order[i].score > order[j].score
                  || (order[i].score == order[j].score && order[i].createdAt <= order[j].createdAt))
  {
    assert e in order <==> e in Visible(rows, challenge, blocks, viewer);
  }

  /** The peers that an ordering happens to place before row `i`. */
  function PeersBefore(order: seq<Entry>, i: nat): set<Entry>
    requires i < |order|
  {
    set e | e in order[..i] && Peers(e, order[i])
  }

  /** A position counts the better rows and the peers that happen to come first. */
  lemma PositionCounts(order: seq<Entry>, s: set<Entry>, i: nat)
    requires Ordering(order, s) && i < |order|
    ensures i + 1 == 1 + |Above(s, order[i])| + |PeersBefore(order, i)|
  {
    var above, peers := Above(s, order[i]), PeersBefore(order, i);
    ElementsSize(order[..i]);
    forall e
      ensures e in Elements(order[..i]) <==> e in above || e in peers
    {
      if e in above {
        var j :| 0 <= j < |order| && order[j] == e;
        assert j < i;
        assert order[..i][j] == e;
      }
      if e in order[..i] {
        var j :| 0 <= j < i && order[j] == e;
        assert !Better(order[i], order[j]);
        assert order[j] in order;
      }
    }
    assert Elements(order[..i]) == above + peers;
    assert above * peers == {};
  }

  /** The rows of a challenge that beat `e` but are hidden from the viewer. */
  function HiddenAbove(rows: set<Entry>, e: Entry, blocks: set<(int, int)>, viewer: Option<int>): set<Entry> {
    set o | o in Above(Contenders(rows, e.challenge), e) && !Unblocked(blocks, viewer, o.user)
  }

  /**
   * The position shown to any viewer, exactly: the share-card rank, less the better
   * entries hidden by blocks, plus the ties that the database lists first.
   */
  lemma PositionAndShareRank(
    rows: set<Entry>, challenge: int, blocks: set<(int, int)>, viewer: Option<int>, order: seq<Entry>, i: nat)
    requires Ordering(order, Visible(rows, challenge, blocks, viewer)) && i < |order|
    ensures i + 1 == ShareRank(rows, order[i]) - |HiddenAbove(rows, order[i], blocks, viewer)| + |PeersBefore(order, i)|
  {
    var shown := Visible(rows, challenge, blocks, viewer);
    assert order[i] in shown;
    PositionCounts(order, shown, i);
    var all := Above(Contenders(rows, challenge), order[i]);
    var hidden := HiddenAbove(rows, order[i], blocks, viewer);
    assert all == Above(shown, order[i]) + hidden;
    assert Above(shown, order[i]) * hidden == {};
  }

  lemma NoPeersBefore(order: seq<Entry>, s: set<Entry>, i: nat)
    requires Ordering(order, s) && NoTies(s) && i < |order|
    ensures PeersBefore(order, i) == {}
  {
    forall j | 0 <= j < i
      ensures !Peers(order[j], order[i])
    {
      assert order[j] in order && order[i] in order;
    }
  }

  /** Without ties no viewer sees an entry placed lower than its share card says. */
  lemma BlocksOnlyRaise(
    rows: set<Entry>, challenge: int, blocks: set<(int, int)>, viewer: Option<int>, order: seq<Entry>, i: nat)
    requires Ordering(order, Visible(rows, challenge, blocks, viewer)) && i < |order|
    requires NoTies(Visible(rows, challenge, blocks, viewer))
    ensures i + 1 <= ShareRank(rows, order[i])
    ensures i + 1 == ShareRank(rows, order[i]) <==> HiddenAbove(rows, order[i], blocks, viewer) == {}
  {
    NoPeersBefore(order, Visible(rows, challenge, blocks, viewer), i);
    PositionAndShareRank(rows, challenge, blocks, viewer, order, i);
  }

  /** Without ties the three ranks of every public entry are one number. */
  lemma ThreeRanksAgree(rows: set<Entry>, challenge: int, blocks: set<(int, int)>, order: seq<Entry>, i: nat)
    requires Ordering(order, Visible(rows, challenge, blocks, None)) && NoTies(Contenders(rows, challenge))
    requires i < |order|
    ensures i + 1 == ShareRank(rows, order[i]) == SqlRank(order, i)
  {
    assert Visible(rows, challenge, blocks, None) == Contenders(rows, challenge);
    NoPeersBefore(order, Contenders(rows, challenge), i);
    PositionCounts(order, Contenders(rows, challenge), i);
    ShareRankIsSqlRank(rows, challenge, order, i);
  }

  /** Without ties the rank shown on any page is the share-card rank, to a viewer with blocks at most that. */
  lemma PageRanks(
    rows: set<Entry>, challenge: int, blocks: set<(int, int)>, viewer: Option<int>, order: seq<Entry>,
    entries: seq<Placed>, limit: int, offset: int, k: nat)
    requires Ordering(order, Visible(rows, challenge, blocks, viewer)) && NoTies(Contenders(rows, challenge))
    requires offset >= 0 && Shows(entries, order, limit, offset) && k < |entries|
    ensures entries[k].rank <= ShareRank(rows, entries[k].entry)
    ensures viewer.None? ==>
              && Ordering(order, Contenders(rows, challenge))
              && entries[k].rank == ShareRank(rows, entries[k].entry) == SqlRank(order, entries[k].rank - 1)
  {
    assert PlacedAt(entries[k], order, offset + k);
    BlocksOnlyRaise(rows, challenge, blocks, viewer, order, offset + k);
    if viewer.None? {
      assert Visible(rows, challenge, blocks, None) == Contenders(rows, challenge);
      ThreeRanksAgree(rows, challenge, blocks, order, offset + k);
    }
  }

  /** Without ties there is one ordering, so pages fetched by separate requests fit together. */
  lemma OrderingUnique(s: set<Entry>, a: seq<Entry>, b: seq<Entry>)
    requires Ordering(a, s) && Ordering(b, s) && NoTies(s)
    ensures a == b
  {
    ElementsSize(a);
    ElementsSize(b);
    assert Elements(a) == Elements(b);
    forall i | 0 <= i < |a|
      ensures a[i] == b[i]
    {
      assert a[i] in s;
      var j :| 0 <= j < |b| && b[j] == a[i];
      NoPeersBefore(a, s, i);
      PositionCounts(a, s, i);
      NoPeersBefore(b, s, j);
      PositionCounts(b, s, j);
    }
  }

  /** With a tie the position is the database's choice: neighbouring peers may be listed either way round. */
  lemma TiesMayBeSwapped(order: seq<Entry>, s: set<Entry>, i: nat)
    requires Ordering(order, s) && i + 1 < |order| && Peers(order[i], order[i + 1])
    ensures Ordering(order[i := order[i + 1]][i + 1 := order[i]], s)
  {
    var other := order[i := order[i + 1]][i + 1 := order[i]];
    forall e
      ensures e in order <==> e in other
    {
      if e in order {
        var j :| 0 <= j < |order| && order[j] == e;
        assert other[if j == i then i + 1 else if j == i + 1 then i else j] == e;
      }
    }
  }

  /** Every finite set of rows has an ordering. */
  lemma {:induction false} OrderingExists(s: set<Entry>) returns (order: seq<Entry>)
    ensures Ordering(order, s)
    decreases s
  {
    if s == {} {
      order := [];
    } else {
      var last := Worst(s);
      var rest := OrderingExists(s - {last});
      order := rest + [last];
      forall e
        ensures e in s <==> e in order
      {
        assert e in s <==> e in s - {last} || e == last;
        assert e in order <==> e in rest || e == last;
      }
    }
  }

  lemma {:induction false} Worst(s: set<Entry>) returns (last: Entry)
    requires s != {}
    ensures last in s && forall e :: e in s ==> !Better(last, e)
    decreases s
  {
    var e := Pick(s);
    last := e;
    if s != {e} {
      var other := Worst(s - {e});
      assert forall x :: x in s ==> x == e || x in s - {e};
      if !Better(other, e) {
        last := other;
      }
    }
  }
}
