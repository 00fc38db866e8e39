/** Channel-plan arithmetic of single radios. Frequencies are in MHz.

    A radio occupies a spectrum around its center and a block of 20 MHz channels; on one
    grid the two views agree. Where the router reports no center, it is derived from the
    primary channel: by alignment in the 6 GHz band, from a table in the 5 GHz band. */
module ChannelPlan {
  import opened Options

  datatype Band = Band24 | Band5 | Band6

  datatype Radio = Radio(entry: string, router: string, phy: string, band: Band,
                         channel: int, width: int, center: int, backhaul: bool)

  function ChannelToMhz(band: Band, channel: int): int {
    match band
    case Band24 => if channel == 14 then 2484 else 2407 + 5 * channel
    case Band6 => 5950 + 5 * channel
    case Band5 => 5000 + 5 * channel
  }

  predicate ValidWidth(width: int) {
    width in {20, 40, 80, 160, 320}
  }

  function LowMhz(r: Radio): int {
    ChannelToMhz(r.band, r.center) - r.width / 2
  }

  function HighMhz(r: Radio): int {
    ChannelToMhz(r.band, r.center) + r.width / 2
  }

  predicate SpansIntersect(a: Radio, b: Radio) {
    Max(LowMhz(a), LowMhz(b)) < Min(HighMhz(a), HighMhz(b))
  }

  function Max(x: int, y: int): int {
    if x > y then x else y
  }

  function Min(x: int, y: int): int {
    if x < y then x else y
  }

  function Parts(width: int): nat {
    if width < 20 then 0 else width / 20
  }

  /** The lowest 20 MHz channel of the block of `width` around `center`. */
  function First(center: int, width: int): int {
    center - 2 * (Parts(width) - 1)
  }

  function Subchannels(center: int, width: int): seq<int> {
    seq(Parts(width), i => First(center, width) + 4 * i)
  }

  predicate EndsWith(s: Option<string>, c: char) {
    s.Some? && s.value != "" && s.value[|s.value| - 1] == c
  }

  /** The center channels of the bonded 5 GHz blocks. */
  function Centers5(width: int): seq<int> {
    if width == 40 then [38, 46, 54, 62, 102, 110, 118, 126, 134, 142, 151, 159, 167, 175]
    else if width == 80 then [42, 58, 106, 122, 138, 155, 171]
    else if width == 160 then [50, 114, 163]
    else []
  }

  predicate Covers(center: int, width: int, channel: int) {
    -2 * (Parts(width) - 1) <= channel - center <= 2 * (Parts(width) - 1)
  }

  function FirstCovering(centers: seq<int>, width: int, channel: int): (r: int)
    ensures (exists c | c in centers :: Covers(c, width, channel)) ==> r in centers && Covers(r, width, channel)
    ensures !(exists c | c in centers :: Covers(c, width, channel)) ==> r == channel
  {
    if centers == [] then channel
    else if Covers(centers[0], width, channel) then centers[0]
    else FirstCovering(centers[1..], width, channel)
  }

  /** The block center when the router did not report one. */
  function DeriveCenter(band: Band, channel: int, width: int, htmode: Option<string>): int {
    if width == 20 then channel
    else if band.Band24? then
      if EndsWith(htmode, '-') then channel - 2
      else if EndsWith(htmode, '+') then channel + 2
      else if channel <= 7 then channel + 2 else channel - 2
    else if band.Band6? then
      var n := Parts(width);
      if n == 0 then channel else (channel - 1) / (4 * n) * (4 * n) + 1 + 2 * (n - 1)
    else FirstCovering(Centers5(width), width, channel)
  }

  // -------------------------------------------- spectrum and sub-channels

  /** Both blocks lie on one grid of 20 MHz channels. */
  predicate SameGrid(a: Radio, b: Radio) {
    && a.band == b.band && !a.band.Band24?
    && ValidWidth(a.width) && ValidWidth(b.width)
    && (First(a.center, a.width) - First(b.center, b.width)) % 4 == 0
  }

  ghost predicate ShareSubchannel(a: Radio, b: Radio) {
    exists s :: s in Subchannels(a.center, a.width) && s in Subchannels(b.center, b.width)
  }

  /** `s` is one of the `n` channels of the block that starts at `first`. */
  predicate Among(first: int, n: nat, s: int) {
    0 <= s - first < 4 * n && (s - first) % 4 == 0
  }

  lemma InBlock(center: int, width: int, s: int)
    ensures s in Subchannels(center, width) <==> Among(First(center, width), Parts(width), s)
  {
    var first, n := First(center, width), Parts(width);
    var block := Subchannels(center, width);
    if Among(first, n, s) {
      assert block[(s - first) / 4] == s;
    }
    if s in block {
      var i :| 0 <= i < n && block[i] == s;
      assert s == first + 4 * i;
    }
  }

  lemma WidthInParts(width: int)
    requires ValidWidth(width)
    ensures width == 20 * Parts(width) && Parts(width) in {1, 2, 4, 8, 16}
  {
  }

  lemma SpanFromFirst(r: Radio)
    requires ValidWidth(r.width)
    ensures !r.band.Band24? ==> LowMhz(r) == ChannelToMhz(r.band, 0) + 5 * First(r.center, r.width) - 10
    ensures HighMhz(r) == LowMhz(r) + 20 * Parts(r.width)
  {
    WidthInParts(r.width);
  }

  /** The occupied spectra intersect exactly when a 20 MHz channel is used by both. */
  lemma SpansIntersectIff(a: Radio, b: Radio)
    requires SameGrid(a, b)
    ensures SpansIntersect(a, b) <==> ShareSubchannel(a, b)
  {
    SpanFromFirst(a);
    SpanFromFirst(b);
    ShareIff(a.center, a.width, b.center, b.width);
  }

  lemma ShareIff(a: int, w: int, b: int, v: int)
    requires ValidWidth(w) && ValidWidth(v) && (First(a, w) - First(b, v)) % 4 == 0
    ensures (exists s :: s in Subchannels(a, w) && s in Subchannels(b, v)) <==>
            First(a, w) < First(b, v) + 4 * Parts(v) && First(b, v) < First(a, w) + 4 * Parts(w)
  {
    WidthInParts(w);
    WidthInParts(v);
    var s := Max(First(a, w), First(b, v));
    InBlock(a, w, s);
    InBlock(b, v, s);
    if exists t :: t in Subchannels(a, w) && t in Subchannels(b, v) {
      var t :| t in Subchannels(a, w) && t in Subchannels(b, v);
      InBlock(a, w, t);
      InBlock(b, v, t);
    }
  }

  // ---------------------------------------------- distances in the spectrum

  /** How far apart two centers lie: 5 MHz per channel number, except that channel 14 of the
      2.4 GHz band lies 12 MHz above channel 13. */
  function Gap(band: Band, c: int, d: int): int {
    if band.Band24? && c == 14 && d != 14 then Abs(12 + 5 * (13 - d))
    else if band.Band24? && d == 14 && c != 14 then Abs(12 + 5 * (13 - c))
    else 5 * Abs(c - d)
  }

  function Abs(x: int): int {
    if x < 0 then -x else x
  }

  lemma GapInMhz(band: Band, c: int, d: int)
    ensures Gap(band, c, d) == Abs(ChannelToMhz(band, c) - ChannelToMhz(band, d))
  {
  }

  lemma NearIff(x: int, w: int, y: int, v: int)
    requires w > 0 && v > 0
    ensures Max(x - w, y - v) < Min(x + w, y + v) <==> Abs(x - y) < w + v
  {
  }

  lemma HalfWidth(width: int)
    requires ValidWidth(width)
    ensures width / 2 > 0 && width == 2 * (width / 2)
  {
  }

  lemma IntersectIffCentersNear(a: Radio, b: Radio)
    requires ValidWidth(a.width) && ValidWidth(b.width)
    ensures SpansIntersect(a, b) <==>
            2 * Abs(ChannelToMhz(a.band, a.center) - ChannelToMhz(b.band, b.center)) < a.width + b.width
  {
    HalfWidth(a.width);
    HalfWidth(b.width);
    NearIff(ChannelToMhz(a.band, a.center), a.width / 2, ChannelToMhz(b.band, b.center), b.width / 2);
  }

  /** In every band two spectra intersect exactly if the centers are less than the mean of the
      two widths apart. */
  lemma IntersectIffNear(a: Radio, b: Radio)
    requires a.band == b.band && ValidWidth(a.width) && ValidWidth(b.width)
    ensures SpansIntersect(a, b) <==> 2 * Gap(a.band, a.center, b.center) < a.width + b.width
  {
    IntersectIffCentersNear(a, b);
    GapInMhz(a.band, a.center, b.center);
  }

  // --------------------------------------------------------- derived blocks

  /** The channels of the block that `DeriveCenter` puts around a primary channel. */
  function Block(band: Band, channel: int, width: int): seq<int> {
    Subchannels(DeriveCenter(band, channel, width, None), width)
  }

  predicate Channel6(channel: int) {
    channel % 4 == 1
  }

  lemma First6(channel: int, width: int)
    requires ValidWidth(width) && Channel6(channel)
    ensures First(DeriveCenter(Band6, channel, width, None), width)
         == (channel - 1) / (4 * Parts(width)) * (4 * Parts(width)) + 1
  {
    WidthInParts(width);
    if width == 20 {
      assert (channel - 1) / 4 * 4 == channel - 1;
    }
  }

  lemma Block6(channel: int, width: int, s: int)
    requires ValidWidth(width) && Channel6(channel)
    ensures s in Block(Band6, channel, width) <==>
            s % 4 == 1 && (s - 1) / (4 * Parts(width)) == (channel - 1) / (4 * Parts(width))
  {
    WidthInParts(width);
    First6(channel, width);
    InBlock(DeriveCenter(Band6, channel, width, None), width, s);
    Aligned(s, (channel - 1) / (4 * Parts(width)), Parts(width));
  }

  lemma Aligned(s: int, q: int, n: nat)
    requires n > 0
    ensures Among(q * (4 * n) + 1, n, s) <==> s % 4 == 1 && (s - 1) / (4 * n) == q
  {
    DivBounds(s - 1, 4 * n, q);
    assert q * (4 * n) == 4 * (q * n);
  }

  lemma DivBounds(x: int, m: int, q: int)
    requires m > 0
    ensures x / m == q <==> 0 <= x - q * m < m
  {
    var d := x / m;
    assert x == d * m + x % m;
    if d > q { Grows(d - q, m); assert (d - q) * m == d * m - q * m; }
    if d < q { Grows(q - d, m); assert (q - d) * m == q * m - d * m; }
  }

  lemma Grows(k: int, m: int)
    requires k >= 1 && m > 0
    ensures k * m >= m
  {
    assert k * m == m + (k - 1) * m;
    assert (k - 1) * m >= 0;
  }

  /** A derived 6 GHz block contains its primary channel. */
  lemma Block6ContainsPrimary(channel: int, width: int)
    requires ValidWidth(width) && Channel6(channel)
    ensures channel in Block(Band6, channel, width)
  {
    Block6(channel, width, channel);
  }

  ghost predicate NestedOrDisjoint(inner: seq<int>, outer: seq<int>) {
    (forall s | s in inner :: s in outer) || (forall s | s in inner :: s !in outer)
  }

  /** Any two derived 6 GHz blocks are nested or disjoint. */
  lemma Blocks6Nest(c: int, w: int, d: int, v: int)
    requires ValidWidth(w) && ValidWidth(v) && w <= v && Channel6(c) && Channel6(d)
    ensures NestedOrDisjoint(Block(Band6, c, w), Block(Band6, d, v))
  {
    var m, k := 4 * Parts(w), Parts(v) / Parts(w);
    assert 4 * Parts(v) == k * m;
    forall s | s in Block(Band6, c, w)
      ensures s in Block(Band6, d, v) <==> (c - 1) / m / k == (d - 1) / (k * m)
    {
      Block6(c, w, s);
      Block6(d, v, s);
      DivTwice(s - 1, m, k);
    }
  }

  lemma DivTwice(x: int, m: int, k: int)
    requires m > 0 && k > 0
    ensures x / (k * m) == x / m / k
  {
    var q := x / m;
    var r, t := q / k, q % k;
    Distribute(r, k, t, m);
    Below(t, k, m);
    assert x == q * m + x % m && q == r * k + t;
    DivBounds(x, k * m, r);
  }

  lemma Distribute(r: int, k: int, t: int, m: int)
    ensures (r * k + t) * m == r * (k * m) + t * m
  {
    assert (r * k) * m == r * (k * m);
  }

  lemma Below(t: int, k: int, m: int)
    requires 0 <= t < k && m > 0
    ensures 0 <= t * m && t * m + m <= k * m && 0 < k * m
  {
    Grows(k - t, m);
    assert (k - t) * m == k * m - t * m;
    if t > 0 { Grows(t, m); }
  }

  /** The 20 MHz channels of the 5 GHz band. */
  predicate Channel5(channel: int) {
    (channel % 4 == 0 && (36 <= channel <= 64 || 100 <= channel <= 144)) || (channel % 4 == 1 && 149 <= channel <= 177)
  }

  predicate HasBlock5(channel: int, width: int) {
    exists c | c in Centers5(width) :: Covers(c, width, channel)
  }

  lemma Block5ContainsPrimary(channel: int, width: int)
    requires Channel5(channel) && ValidWidth(width) && (width == 20 || HasBlock5(channel, width))
    ensures channel in Block(Band5, channel, width)
  {
    var c := DeriveCenter(Band5, channel, width, None);
    InBlock(c, width, channel);
    if width != 20 { CoveredIsAmong(c, width, channel); }
  }

  /** The three runs of 5 GHz channels: where they start, and the first channel after them. */
  function Run5(channel: int): (int, int) {
    if channel < 70 then (36, 68) else if channel < 148 then (100, 148) else (149, 181)
  }

  predicate IsCenter5(center: int, width: int) {
    if width == 20 then Channel5(center) else center in Centers5(width)
  }

  predicate InRun5(first: int, n: int) {
    n > 0 && Run5(first).0 <= first && first + 4 * n <= Run5(first).1
  }

  /** A block lies inside one run, at a multiple of its own size. */
  predicate Fits5(first: int, n: int) {
    InRun5(first, n) && (first - Run5(first).0) % (4 * n) == 0
  }

  lemma BlocksFit5(center: int, width: int)
    requires ValidWidth(width) && IsCenter5(center, width)
    ensures Fits5(First(center, width), Parts(width)) && width in {20, 40, 80, 160}
  {
    if width == 40 {
      Centers40(center);
    } else if width == 80 {
      Centers80(center);
    } else if width == 160 {
      Centers160(center);
    }
  }

  lemma Centers40(c: int)
    requires c in Centers5(40)
    ensures Fits5(c - 2, 2)
  {
    var s := Centers5(40);
    var i :| 0 <= i < 14 && s[i] == c;
    assert (i < 4 && c == 38 + 8 * i) || (4 <= i < 10 && c == 102 + 8 * (i - 4))
      || (10 <= i && c == 151 + 8 * (i - 10));
  }

  lemma Centers80(c: int)
    requires c in Centers5(80)
    ensures Fits5(c - 6, 4)
  {
  }

  lemma Centers160(c: int)
    requires c in Centers5(160)
    ensures Fits5(c - 14, 8)
  {
  }

  lemma CoveredIsAmong(c: int, width: int, channel: int)
    requires ValidWidth(width) && c in Centers5(width) && Channel5(channel) && Covers(c, width, channel)
    ensures Among(First(c, width), Parts(width), channel)
  {
    var first, n := First(c, width), Parts(width);
    BlocksFit5(c, width);
    BlocksFit5(channel, 20);
    SameRun(first, n, channel);
    DivisibleBy4(first - Run5(first).0, n);
    OnGrid(first, n, channel, Run5(first).0);
  }

  lemma SameRun(first: int, n: int, channel: int)
    requires InRun5(first, n) && first <= channel <= first + 4 * (n - 1)
    ensures Run5(channel) == Run5(first)
  {
  }

  lemma OnGrid(first: int, n: nat, channel: int, start: int)
    requires (first - start) % 4 == 0 && (channel - start) % 4 == 0 && first <= channel <= first + 4 * (n - 1)
    ensures Among(first, n, channel)
  {
  }

  lemma DivisibleBy4(x: int, n: int)
    requires n > 0 && x % (4 * n) == 0
    ensures x % 4 == 0
  {
    Whole(x, n);
  }

  lemma CenterOf5(channel: int, width: int)
    requires Channel5(channel) && (width == 20 || HasBlock5(channel, width))
    ensures IsCenter5(DeriveCenter(Band5, channel, width, None), width)
  {
  }

  /** Derived 5 GHz blocks are nested or disjoint, too. */
  lemma Blocks5Nest(c: int, w: int, d: int, v: int)
    requires ValidWidth(w) && ValidWidth(v) && w <= v && Channel5(c) && Channel5(d)
    requires w == 20 || HasBlock5(c, w)
    requires v == 20 || HasBlock5(d, v)
    ensures NestedOrDisjoint(Block(Band5, c, w), Block(Band5, d, v))
  {
    CenterOf5(c, w);
    CenterOf5(d, v);
    CentersNest5(DeriveCenter(Band5, c, w, None), w, DeriveCenter(Band5, d, v, None), v);
  }

  lemma CentersNest5(a: int, w: int, b: int, v: int)
    requires ValidWidth(w) && ValidWidth(v) && w <= v && IsCenter5(a, w) && IsCenter5(b, v)
    ensures NestedOrDisjoint(Subchannels(a, w), Subchannels(b, v))
  {
    BlocksFit5(a, w);
    BlocksFit5(b, v);
    FitsNest(First(a, w), Parts(w), First(b, v), Parts(v));
    forall s
      ensures s in Subchannels(a, w) <==> Among(First(a, w), Parts(w), s)
      ensures s in Subchannels(b, v) <==> Among(First(b, v), Parts(v), s)
    {
      InBlock(a, w, s);
      InBlock(b, v, s);
    }
  }

  /** The smaller block starts inside the larger one and ends there, or lies outside. */
  lemma FitsNest(x: int, n: nat, y: int, m: nat)
    requires n in {1, 2, 4, 8} && m in {1, 2, 4, 8} && n <= m && Fits5(x, n) && Fits5(y, m)
    ensures (forall s | Among(x, n, s) :: Among(y, m, s)) || (forall s | Among(x, n, s) :: !Among(y, m, s))
  {
    if Run5(x) == Run5(y) {
      var u, v := x - Run5(x).0, y - Run5(x).0;
      Whole(u, n);
      Whole(v, m);
      Apart(n, u / (4 * n), m / n, m, v / (4 * m));
      AlignedNest(x, n, y, m, n * (u / (4 * n)) - m * (v / (4 * m)));
    } else {
      RunsAreApart(x, n, y, m);
    }
  }

  lemma RunsAreApart(x: int, n: nat, y: int, m: nat)
    requires InRun5(x, n) && InRun5(y, m) && Run5(x) != Run5(y)
    ensures forall s | Among(x, n, s) :: !Among(y, m, s)
  {
  }

  lemma Whole(x: int, n: nat)
    requires n > 0 && x % (4 * n) == 0
    ensures x == 4 * (n * (x / (4 * n)))
  {
    assert x == 4 * n * (x / (4 * n));
  }

  lemma Apart(n: int, p: int, k: int, m: int, q: int)
    requires n > 0 && k > 0 && m == k * n
    ensures var d := n * p - m * q; 0 <= d <= m - n || d <= -n || d >= m
  {
    Factor(n, p, k, q);
    Steps(p - k * q, n, k);
  }

  lemma Factor(n: int, p: int, k: int, q: int)
    ensures n * (p - k * q) == n * p - k * n * q
  {
    assert n * (k * q) == k * n * q;
  }

  lemma Steps(d: int, n: int, k: int)
    requires n > 0
    ensures d < 0 ==> n * d <= -n
    ensures d >= k ==> n * d >= k * n
    ensures 0 <= d < k ==> 0 <= n * d <= k * n - n
  {
    if d < 0 { Grows(-d, n); }
    if d > k { Grows(d - k, n); assert (d - k) * n == n * d - k * n; }
    if 0 <= d < k { Below(d, k, n); }
  }

  lemma AlignedNest(x: int, n: nat, y: int, m: nat, d: int)
    requires x - y == 4 * d && (0 <= d <= m - n || d + n <= 0 || d >= m)
    ensures (forall s | Among(x, n, s) :: Among(y, m, s)) || (forall s | Among(x, n, s) :: !Among(y, m, s))
  {
  }

  lemma HasBlock40(channel: int)
    requires Channel5(channel)
    ensures HasBlock5(channel, 40)
  {
    var s := Centers5(40);
    var i := if channel < 70 then (channel - 36) / 8 else if channel < 148 then 4 + (channel - 100) / 8
    else 10 + (channel - 149) / 8;
    assert Covers(s[i], 40, channel);
  }

  lemma HasBlock80(channel: int)
    requires Channel5(channel)
    ensures HasBlock5(channel, 80)
  {
    var s := Centers5(80);
    var i := if channel < 70 then (channel - 36) / 16 else if channel < 148 then 2 + (channel - 100) / 16
    else 5 + (channel - 149) / 16;
    assert Covers(s[i], 80, channel);
  }

  lemma HasBlock160Iff(channel: int)
    requires Channel5(channel)
    ensures HasBlock5(channel, 160) <==> !(132 <= channel <= 144)
  {
    var s := Centers5(160);
    var i := if channel < 70 then 0 else if channel < 148 then 1 else 2;
    assert s[i] in s;
    assert Covers(s[i], 160, channel) <==> !(132 <= channel <= 144);
  }

  /** In the 5 GHz band every channel has a 40 and an 80 MHz block, and the channels from 132 to
      144 have no 160 MHz block. */
  lemma HasBlock5Iff(channel: int, width: int)
    requires Channel5(channel) && ValidWidth(width)
    ensures HasBlock5(channel, width) <==>
            width == 40 || width == 80 || (width == 160 && !(132 <= channel <= 144))
  {
    if width == 40 {
      HasBlock40(channel);
    } else if width == 80 {
      HasBlock80(channel);
    } else if width == 160 {
      HasBlock160Iff(channel);
    }
  }

  /** In the 2.4 GHz band a 40 MHz block lies on the side that the mode names; without a named
      side it lies inside channels 1 to 13, upwards from the lower seven. */
  lemma Block24(channel: int, mode: string)
    ensures DeriveCenter(Band24, channel, 40, Some(mode + "+")) == channel + 2
    ensures DeriveCenter(Band24, channel, 40, Some(mode + "-")) == channel - 2
    ensures 1 <= channel <= 13 ==>
              var c := DeriveCenter(Band24, channel, 40, None);
              1 <= c - 2 && c + 2 <= 13 && Abs(c - channel) == 2 && (c > channel <==> channel <= 7)
  {
    assert (mode + "+")[|mode|] == '+' && (mode + "-")[|mode|] == '-';
  }

  /** A radio of 20 MHz is centered on its channel, in every band and mode. */
  lemma NarrowIsCentered(band: Band, channel: int, mode: Option<string>)
    ensures DeriveCenter(band, channel, 20, mode) == channel
  {
  }

  /** Whatever the channel, a derived 6 GHz block starts at a multiple of its own size above
      channel 1, and the channel lies in it or before the next one. */
  lemma Block6IsAligned(channel: int, width: int, mode: Option<string>)
    requires ValidWidth(width) && width != 20
    ensures var first := DeriveCenter(Band6, channel, width, mode) - (width / 10 - 2);
            (first - 1) % (width / 5) == 0 && first <= channel < first + width / 5
  {
    WidthInParts(width);
    var m := 4 * Parts(width);
    assert width / 5 == m && width / 10 - 2 == 2 * (Parts(width) - 1);
    var q := (channel - 1) / m;
    DivBounds(channel - 1, m, q);
    assert (q * m) % m == 0 by { DivBounds(q * m, m, q); }
  }

  /** Whatever the channel, the derived 5 GHz center is a tabled one whose block reaches the
      channel, and the channel itself where the table has none. */
  lemma Block5IsTabled(channel: int, width: int, mode: Option<string>)
    requires ValidWidth(width) && width != 20
    ensures var c := DeriveCenter(Band5, channel, width, mode);
            if exists d :: d in Centers5(width) && Abs(channel - d) <= width / 10 - 2
            then c in Centers5(width) && Abs(channel - c) <= width / 10 - 2
            else c == channel
  {
    WidthInParts(width);
    forall d ensures Covers(d, width, channel) <==> Abs(channel - d) <= width / 10 - 2 {
    }
  }

  /** Channels by their frequencies. */
  lemma WellKnownFrequencies()
    ensures ChannelToMhz(Band24, 1) == 2412 && ChannelToMhz(Band24, 13) == 2472 && ChannelToMhz(Band24, 14) == 2484
    ensures ChannelToMhz(Band5, 36) == 5180 && ChannelToMhz(Band5, 165) == 5825
    ensures ChannelToMhz(Band6, 1) == 5955 && ChannelToMhz(Band6, 233) == 7115
  {
  }
}
