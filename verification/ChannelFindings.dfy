/** The channel-plan analysis over all radios: of what and how often it reports, and in which order. */
module ChannelFindings {
  import opened ChannelPlan
  import opened PairSums
  import opened StringOrder

  // Findings are compared as multisets: their order in the report is a matter of display.

  datatype FindingKind = SameChannel | Overlap | NonStandard24 | Dfs

  /** What a finding shows of one radio; the router entry is not part of it. */
  datatype Attr = Attr(router: string, phy: string, band: Band, channel: int, width: int, backhaul: bool)
  datatype Finding = Finding(kind: FindingKind, band: Band, radios: seq<Attr>, entries: set<string>)

  const DFS_FIRST_CHANNEL := 52
  const DFS_LAST_CHANNEL := 144

  function AttrOf(r: Radio): Attr {
    Attr(r.router, r.phy, r.band, r.channel, r.width, r.backhaul)
  }

  /** Order of the radios inside a finding: by router title, then by phy. */
  predicate NameLe(a: Radio, b: Radio) {
    if a.router == b.router then StrLe(a.phy, b.phy) else StrLe(a.router, b.router)
  }

  predicate SameName(a: Radio, b: Radio) {
    a.router == b.router && a.phy == b.phy
  }

  lemma NameLeIsLinear(a: Radio, b: Radio)
    ensures NameLe(a, b) || NameLe(b, a)
    ensures NameLe(a, b) && NameLe(b, a) <==> SameName(a, b)
  {
    StrLeIsLinear(a.router, b.router);
    StrLeIsLinear(a.phy, b.phy);
    StrLeIsLinear(a.phy, a.phy);
  }

  // ----------------------------------------------------------- findings

  function One(kind: FindingKind, r: Radio): Finding {
    Finding(kind, r.band, [AttrOf(r)], {r.entry})
  }

  function Two(kind: FindingKind, a: Radio, b: Radio): Finding {
    var (x, y) := if NameLe(a, b) then (a, b) else (b, a);
    Finding(kind, x.band, [AttrOf(x), AttrOf(y)], {a.entry, b.entry})
  }

  predicate UsesDfs(r: Radio) {
    exists s | s in Subchannels(r.center, r.width) :: DFS_FIRST_CHANNEL <= s <= DFS_LAST_CHANNEL
  }

  function OfRadio(r: Radio): multiset<Finding> {
    (if r.band.Band24? && r.channel !in {1, 6, 11} then multiset{One(NonStandard24, r)} else multiset{}) +
    (if r.band.Band5? && UsesDfs(r) then multiset{One(Dfs, r)} else multiset{})
  }

  /** Two different radios of one band without a backhaul that disturb each other. */
  predicate Disturb(a: Radio, b: Radio) {
    && a.band == b.band && (a.entry, a.phy) != (b.entry, b.phy)
    && !a.backhaul && !b.backhaul
    && (a.channel == b.channel || SpansIntersect(a, b))
  }

  function PairFinding(a: Radio, b: Radio): Finding {
    Two(if a.channel == b.channel then SameChannel else Overlap, a, b)
  }

  function OfPair(a: Radio, b: Radio): multiset<Finding> {
    if Disturb(a, b) then multiset{PairFinding(a, b)} else multiset{}
  }

  /** All findings: those of single radios and those of pairs. */
  ghost function Findings(radios: seq<Radio>): multiset<Finding> {
    Sum(radios, OfRadio) + Pairs(radios, OfPair)
  }

  // ------------------------------------- exactly one finding for each pair

  lemma PairsHaveTwoRadios(a: Radio, b: Radio, f: Finding)
    ensures OfPair(a, b)[f] <= 1
    ensures f in OfPair(a, b) ==> |f.radios| == 2
    ensures f in OfRadio(a) ==> |f.radios| == 1
  {
  }

  /** A finding about two radios is reported once for every unordered pair of positions
      that yields it, no more and no less. */
  lemma OneFindingPerPair(radios: seq<Radio>, f: Finding)
    requires f.kind.SameChannel? || f.kind.Overlap?
    ensures Findings(radios)[f] == |PairPositions(radios, OfPair, f)|
  {
    forall a, b ensures OfPair(a, b)[f] <= 1 { PairsHaveTwoRadios(a, b, f); }
    PairCount(radios, OfPair, f);
    SinglesAreNoPairs(radios, f);
  }

  lemma {:induction false} SinglesAreNoPairs(radios: seq<Radio>, f: Finding)
    requires f.kind.SameChannel? || f.kind.Overlap?
    ensures Sum(radios, OfRadio)[f] == 0
  {
    if radios != [] {
      SinglesAreNoPairs(radios[1..], f);
      assert OfRadio(radios[0])[f] == 0;
    }
  }

  /** On one 5/6 GHz grid a pair is reported as overlap exactly when the channels differ
      and some 20 MHz channel is used by both radios. */
  lemma OverlapIsSharedSubchannel(a: Radio, b: Radio)
    requires SameGrid(a, b) && (a.entry, a.phy) != (b.entry, b.phy) && !a.backhaul && !b.backhaul
    ensures OfPair(a, b) == multiset{Two(Overlap, a, b)} <==> (a.channel != b.channel && ShareSubchannel(a, b))
  {
    SpansIntersectIff(a, b);
    if a.channel == b.channel {
      assert OfPair(a, b)[Two(Overlap, a, b)] == 0;
    }
  }

  // ------------------------------------------------- order of the radios

  /** A reported pair whose radios cannot be told apart by name but look different:
      the finding then shows them in input order. */
  predicate Ambiguous(a: Radio, b: Radio) {
    Disturb(a, b) && SameName(a, b) && AttrOf(a) != AttrOf(b)
  }

  lemma PairSymmetricIff(a: Radio, b: Radio)
    ensures OfPair(a, b) == OfPair(b, a) <==> !Ambiguous(a, b)
  {
    NameLeIsLinear(a, b);
    assert {a.entry, b.entry} == {b.entry, a.entry};
    assert Disturb(a, b) <==> Disturb(b, a);
    if Ambiguous(a, b) {
      var f, g := PairFinding(a, b), PairFinding(b, a);
      assert f.radios[0] == AttrOf(a) && g.radios[0] == AttrOf(b);
      assert OfPair(a, b)[f] == 1 && OfPair(b, a)[f] == 0;
    }
  }

  ghost predicate NoneAmbiguous(radios: seq<Radio>) {
    forall a, b | a in radios && b in radios :: !Ambiguous(a, b)
  }

  ghost predicate SameFindingsInAnyOrder(radios: seq<Radio>) {
    forall perm | multiset(perm) == multiset(radios) :: Findings(perm) == Findings(radios)
  }

  lemma SymmetricIff(radios: seq<Radio>)
    ensures SymmetricOn(radios, OfPair) <==> NoneAmbiguous(radios)
  {
    forall a, b ensures OfPair(a, b) == OfPair(b, a) <==> !Ambiguous(a, b) {
      PairSymmetricIff(a, b);
    }
  }

  lemma PairsDecide(radios: seq<Radio>, perm: seq<Radio>)
    requires multiset(perm) == multiset(radios)
    ensures Findings(perm) == Findings(radios) <==> Pairs(perm, OfPair) == Pairs(radios, OfPair)
  {
    SumPermutes(perm, radios, OfRadio);
    var singles := Sum(radios, OfRadio);
    assert Findings(perm) - singles == Pairs(perm, OfPair);
    assert Findings(radios) - singles == Pairs(radios, OfPair);
  }

  /** The findings do not depend on the order of the radios exactly when no reported
      pair has the same router title and phy but different attributes. */
  lemma SameFindingsIff(radios: seq<Radio>)
    ensures SameFindingsInAnyOrder(radios) <==> NoneAmbiguous(radios)
  {
    SymmetricIff(radios);
    PairsOrderIndependentIff(radios, OfPair);
    if SymmetricOn(radios, OfPair) {
      forall perm | multiset(perm) == multiset(radios) ensures Findings(perm) == Findings(radios) {
        PairsDecide(radios, perm);
      }
    } else {
      var perm :| multiset(perm) == multiset(radios) && Pairs(perm, OfPair) != Pairs(radios, OfPair);
      PairsDecide(radios, perm);
    }
  }

  /** Two routers with the same title, each with a 5 GHz radio "phy0", on overlapping channels:
      the one finding about them shows the radios in input order. */
  lemma OrderShows()
    ensures var a := Radio("first", "Router", "phy0", Band5, 36, 80, 42, false);
            var b := Radio("second", "Router", "phy0", Band5, 40, 80, 42, false);
            Ambiguous(a, b) && multiset([a, b]) == multiset([b, a]) && Findings([a, b]) != Findings([b, a])
  {
    var a := Radio("first", "Router", "phy0", Band5, 36, 80, 42, false);
    var b := Radio("second", "Router", "phy0", Band5, 40, 80, 42, false);
    assert "first"[0] != "second"[0];
    assert SpansIntersect(a, b);
    assert Ambiguous(a, b);
    PairSymmetricIff(a, b);
    OnePair(a, b);
    OnePair(b, a);
    assert multiset([a, b]) == multiset([b, a]);
    PairsDecide([a, b], [b, a]);
  }

  lemma OnePair(a: Radio, b: Radio)
    ensures Pairs([a, b], OfPair) == OfPair(a, b)
  {
    PairsOfTwo(a, b, [], OfPair);
    assert [a] + ([b] + []) == [a, b];
  }

  // ------------------------------------------- in terms of the radios

  /** A finding shows its two radios by router title and phy, whatever their order in the list. */
  predicate Shows(f: Finding, a: Radio, b: Radio) {
    && f.band == a.band && f.entries == {a.entry, b.entry}
    && f.radios == if StrLe(a.router, b.router) && (a.router == b.router ==> StrLe(a.phy, b.phy))
                   then [AttrOf(a), AttrOf(b)] else [AttrOf(b), AttrOf(a)]
  }

  /** Radios of one band that could disturb each other: two, and no uplink among them. */
  predicate Rivals(a: Radio, b: Radio) {
    a.band == b.band && (a.entry != b.entry || a.phy != b.phy) && !a.backhaul && !b.backhaul
  }

  ghost predicate PairReported(radios: seq<Radio>, f: Finding, i: int, j: int) {
    && 0 <= i < j < |radios| && Rivals(radios[i], radios[j]) && Shows(f, radios[i], radios[j])
    && if radios[i].channel == radios[j].channel then f.kind == SameChannel
       else f.kind == Overlap
            && 2 * Gap(radios[i].band, radios[i].center, radios[j].center) < radios[i].width + radios[j].width
  }

  ghost predicate RadioReported(radios: seq<Radio>, f: Finding, i: int) {
    && 0 <= i < |radios| && f.band == radios[i].band && f.radios == [AttrOf(radios[i])]
    && f.entries == {radios[i].entry}
    && match f.kind
       case NonStandard24 => f.band == Band24 && radios[i].channel != 1 && radios[i].channel != 6
                             && radios[i].channel != 11
       case Dfs => f.band == Band5 && ReachesDfs(radios[i])
       case _ => false
  }

  /** The block ends at 52 or above and begins at 144 or below. */
  predicate ReachesDfs(r: Radio) {
    52 <= r.center + r.width / 10 - 2 && r.center - r.width / 10 + 2 <= 144
  }

  lemma ReachesDfsIff(r: Radio)
    requires ValidWidth(r.width)
    ensures UsesDfs(r) <==> ReachesDfs(r)
  {
    WidthInParts(r.width);
    var first, n := First(r.center, r.width), Parts(r.width);
    if ReachesDfs(r) {
      var s := if first >= 52 then first else first + 4 * ((55 - first) / 4);
      InBlock(r.center, r.width, s);
      assert DFS_FIRST_CHANNEL <= s <= DFS_LAST_CHANNEL;
    }
    if s :| s in Subchannels(r.center, r.width) && DFS_FIRST_CHANNEL <= s <= DFS_LAST_CHANNEL {
      InBlock(r.center, r.width, s);
    }
  }

  lemma {:induction false} InSum(radios: seq<Radio>, f: Finding)
    ensures f in Sum(radios, OfRadio) <==> exists i | 0 <= i < |radios| :: f in OfRadio(radios[i])
  {
    if radios != [] {
      InSum(radios[1..], f);
      if i :| 0 <= i < |radios[1..]| && f in OfRadio(radios[1..][i]) { assert radios[i + 1] == radios[1..][i]; }
      if i :| 0 <= i < |radios| && f in OfRadio(radios[i]) {
        if i > 0 { assert radios[1..][i - 1] == radios[i]; }
      }
    }
  }

  lemma InPairs(radios: seq<Radio>, f: Finding)
    ensures f in Pairs(radios, OfPair) <==> exists i, j | 0 <= i < j < |radios| :: f in OfPair(radios[i], radios[j])
  {
    forall a, b ensures OfPair(a, b)[f] <= 1 { PairsHaveTwoRadios(a, b, f); }
    PairCount(radios, OfPair, f);
    var positions := PairPositions(radios, OfPair, f);
    if i, j :| 0 <= i < j < |radios| && f in OfPair(radios[i], radios[j]) { assert (i, j) in positions; }
    if f in Pairs(radios, OfPair) {
      var p :| p in positions;
      assert f in OfPair(radios[p.0], radios[p.1]);
    }
  }

  lemma PairTold(radios: seq<Radio>, f: Finding, i: int, j: int)
    requires 0 <= i < j < |radios| && ValidWidth(radios[i].width) && ValidWidth(radios[j].width)
    ensures f in OfPair(radios[i], radios[j]) <==> PairReported(radios, f, i, j)
  {
    var a, b := radios[i], radios[j];
    StrLeIsLinear(a.router, b.router);
    if a.band == b.band { IntersectIffNear(a, b); }
  }

  lemma RadioTold(radios: seq<Radio>, f: Finding, i: int)
    requires 0 <= i < |radios| && ValidWidth(radios[i].width)
    ensures f in OfRadio(radios[i]) <==> RadioReported(radios, f, i)
  {
    ReachesDfsIff(radios[i]);
  }

  lemma SinglesTold(radios: seq<Radio>, f: Finding)
    requires forall r | r in radios :: ValidWidth(r.width)
    ensures f in Sum(radios, OfRadio) <==> exists i :: RadioReported(radios, f, i)
  {
    InSum(radios, f);
    if i :| 0 <= i < |radios| && f in OfRadio(radios[i]) {
      RadioTold(radios, f, i);
    }
    if i :| RadioReported(radios, f, i) {
      RadioTold(radios, f, i);
    }
  }

  lemma PairsTold(radios: seq<Radio>, f: Finding)
    requires forall r | r in radios :: ValidWidth(r.width)
    ensures f in Pairs(radios, OfPair) <==> exists i, j :: PairReported(radios, f, i, j)
  {
    InPairs(radios, f);
    if i, j :| 0 <= i < j < |radios| && f in OfPair(radios[i], radios[j]) {
      PairTold(radios, f, i, j);
    }
    if i, j :| PairReported(radios, f, i, j) {
      PairTold(radios, f, i, j);
    }
  }

  /** What the report says, in terms of channels, centers and widths: of a radio, that it is off
      channels 1, 6 and 11 or reaches into 52 to 144; of two rivals, that they share the channel,
      or else that their centers are nearer than the mean of their widths. */
  lemma FindingsTold(radios: seq<Radio>, f: Finding)
    requires forall r | r in radios :: ValidWidth(r.width)
    ensures f in Findings(radios) <==>
            (exists i :: RadioReported(radios, f, i)) || (exists i, j :: PairReported(radios, f, i, j))
  {
    SinglesTold(radios, f);
    PairsTold(radios, f);
  }

  /** Two rivals on different channels from 1 to 13 of the 2.4 GHz band are reported exactly if ten
      times the distance of their center channels is below the sum of their widths. */
  lemma OverlapIn24(a: Radio, b: Radio, f: Finding)
    requires Rivals(a, b) && a.band == Band24 && ValidWidth(a.width) && ValidWidth(b.width)
    requires 1 <= a.center <= 13 && 1 <= b.center <= 13 && a.channel != b.channel
    requires f.kind == Overlap && Shows(f, a, b)
    ensures f in Findings([a, b]) <==> 10 * Abs(a.center - b.center) < a.width + b.width
  {
    FindingsTold([a, b], f);
    assert (exists i, j :: PairReported([a, b], f, i, j)) <==> PairReported([a, b], f, 0, 1);
  }

  /** Channel 14 lies 12 MHz above channel 13: at 20 MHz it overlaps with 12 and 13 only. */
  lemma OverlapWith14(a: Radio, b: Radio, f: Finding)
    requires Rivals(a, b) && a.band == Band24 && a.width == 20 && b.width == 20
    requires a.center == 14 && 1 <= b.center <= 13 && a.channel != b.channel
    requires f.kind == Overlap && Shows(f, a, b)
    ensures f in Findings([a, b]) <==> b.center == 12 || b.center == 13
  {
    FindingsTold([a, b], f);
    assert (exists i, j :: PairReported([a, b], f, i, j)) <==> PairReported([a, b], f, 0, 1);
  }

  /** The standard plan is clean: radios of 20 MHz on channels 1, 6 and 11 are never reported as
      overlapping or as off the plan, however many there are. */
  lemma StandardPlanIsClean(radios: seq<Radio>, f: Finding)
    requires forall r | r in radios :: ValidWidth(r.width)
    requires forall r | r in radios && r.band == Band24 ::
               r.width == 20 && r.channel in {1, 6, 11} && r.center == r.channel
    requires f.band == Band24 && f.kind != SameChannel
    ensures f !in Findings(radios)
  {
    FindingsTold(radios, f);
    forall i, j ensures !PairReported(radios, f, i, j) {
      if 0 <= i < j < |radios| {
        var a, b := radios[i], radios[j];
        assert a in radios && b in radios;
      }
    }
  }

  // ----------------------------------------------------------- the method

  method Analyze(radios: seq<Radio>) returns (findings: seq<Finding>)
    ensures multiset(findings) == Findings(radios)
  {
    findings := SingleFindings(radios);
    for i := 0 to |radios|
      invariant multiset(findings) + Pairs(radios[i..], OfPair) == Findings(radios)
    {
      assert radios[i..][0] == radios[i] && radios[i..][1..] == radios[i + 1..];
      var found := PairsFrom(radios, i);
      findings := findings + found;
    }
  }

  /** The first loop: what every radio is reported for alone. */
  method SingleFindings(radios: seq<Radio>) returns (findings: seq<Finding>)
    ensures multiset(findings) == Sum(radios, OfRadio)
  {
    findings := [];
    for i := 0 to |radios|
      invariant multiset(findings) + Sum(radios[i..], OfRadio) == Sum(radios, OfRadio)
    {
      var r := radios[i];
      assert radios[i..][0] == r && radios[i..][1..] == radios[i + 1..];
      var found: seq<Finding> := [];
      if r.band.Band24? && r.channel !in {1, 6, 11} {
        found := [One(NonStandard24, r)];
      }
      if r.band.Band5? && UsesDfs(r) {
        found := found + [One(Dfs, r)];
      }
      assert multiset(found) == OfRadio(r);
      findings := findings + found;
    }
  }

  /** The inner loop: one radio against all later ones. */
  method PairsFrom(radios: seq<Radio>, i: nat) returns (findings: seq<Finding>)
    requires i < |radios|
    ensures multiset(findings) == Row(radios[i], radios[i + 1..], OfPair)
  {
    findings := [];
    var a := radios[i];
    for j := i + 1 to |radios|
      invariant multiset(findings) + Row(a, radios[j..], OfPair) == Row(a, radios[i + 1..], OfPair)
    {
      var found := PairFindings(a, radios[j]);
      RowStep(a, radios, j);
      assert multiset(findings + found) == multiset(findings) + OfPair(a, radios[j]);
      findings := findings + found;
    }
  }

  lemma RowStep(a: Radio, radios: seq<Radio>, j: nat)
    requires j < |radios|
    ensures Row(a, radios[j..], OfPair) == OfPair(a, radios[j]) + Row(a, radios[j + 1..], OfPair)
  {
    assert radios[j..][0] == radios[j] && radios[j..][1..] == radios[j + 1..];
  }

  /** Its body: one pair. */
  method PairFindings(a: Radio, b: Radio) returns (findings: seq<Finding>)
    ensures multiset(findings) == OfPair(a, b)
  {
    if a.band != b.band || (a.entry, a.phy) == (b.entry, b.phy) {
      return [];
    }
    if a.backhaul || b.backhaul {
      return [];
    }
    if a.channel == b.channel {
      return [Two(SameChannel, a, b)];
    }
    findings := if SpansIntersect(a, b) then [Two(Overlap, a, b)] else [];
  }
}
