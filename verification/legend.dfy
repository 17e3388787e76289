/**
 * The legend exporter: which biomes the legend lists and in what order, the
 * planet label, the integer layout of the legend image, and the drawing of
 * the legend itself.
 */
module Legend {
  import opened Wrappers
  import opened Colors
  import opened Biomes
  import opened Generation
  import opened Png

  // ---------------------------------------------------------------------------
  // The biome list
  // ---------------------------------------------------------------------------

  /** The biome of every tile, in tile order. */
  function TileBiomes(tiles: seq<Tile>): (bs: seq<Biome>)
    ensures |bs| == |tiles| && forall i | 0 <= i < |tiles| :: bs[i] == tiles[i].biome
  {
    seq(|tiles|, i requires 0 <= i < |tiles| => tiles[i].biome)
  }

  /** No biome occurs twice. */
  predicate Distinct(bs: seq<Biome>) {
    forall i, j | 0 <= i < j < |bs| :: bs[i] != bs[j]
  }

  /**
   * The biomes of a sequence in order of first occurrence: the list a
   * `seen` set builds when each new biome is pushed as it is first met.
   */
  function FirstSeen(bs: seq<Biome>): (r: seq<Biome>)
    ensures Distinct(r)
    ensures forall b :: b in r <==> b in bs
  {
    if bs == [] then []
    else
      var init := FirstSeen(bs[..|bs| - 1]);
      var last := bs[|bs| - 1];
      assert forall b :: b in bs <==> b in bs[..|bs| - 1] || b == last;
      if last in init then init else init + [last]
  }

  /** The collection loop of the legend exporter, with the hash set as a Dafny set. */
  method CollectBiomes(tiles: seq<Tile>) returns (biomes: seq<Biome>)
    ensures biomes == FirstSeen(TileBiomes(tiles))
  {
    var all := TileBiomes(tiles);
    var seen: set<Biome> := {};
    biomes := [];
    for k := 0 to |tiles|
      invariant biomes == FirstSeen(all[..k])
      invariant forall b :: b in seen <==> b in biomes
    {
      assert all[..k + 1][..k] == all[..k];
      var b := tiles[k].biome;
      if b !in seen {
        seen := seen + {b};
        biomes := biomes + [b];
      }
    }
    assert all[..|tiles|] == all;
  }

  /** Sorted by the legend sort key, each key strictly above the one before. */
  predicate StrictlyOrdered(bs: seq<Biome>) {
    forall i, j | 0 <= i < j < |bs| :: BiomeOrder(bs[i]) < BiomeOrder(bs[j])
  }

  /** Non-decreasing by the legend sort key; duplicates may sit side by side. */
  predicate Sorted(bs: seq<Biome>) {
    forall i, j | 0 <= i < j < |bs| :: BiomeOrder(bs[i]) <= BiomeOrder(bs[j])
  }

  /** Insert one biome into a list sorted by the legend sort key, before the first larger key. */
  function Insert(b: Biome, bs: seq<Biome>): (r: seq<Biome>)
    ensures multiset(r) == multiset(bs) + multiset{b}
  {
    if bs == [] then [b]
    else if BiomeOrder(b) <= BiomeOrder(bs[0]) then [b] + bs
    else
      assert bs == [bs[0]] + bs[1..];
      [bs[0]] + Insert(b, bs[1..])
  }

  lemma {:induction false} InsertMembers(b: Biome, bs: seq<Biome>, x: Biome)
    ensures x in Insert(b, bs) <==> x in bs || x == b
  {
    assert x in Insert(b, bs) <==> x in multiset(Insert(b, bs));
  }

  lemma OrderedTail(bs: seq<Biome>)
    requires StrictlyOrdered(bs) && bs != []
    ensures StrictlyOrdered(bs[1..])
  {
    forall i, j | 0 <= i < j < |bs| - 1
      ensures BiomeOrder(bs[1..][i]) < BiomeOrder(bs[1..][j])
    {
      assert bs[1..][i] == bs[i + 1] && bs[1..][j] == bs[j + 1];
    }
  }

  lemma OrderedCons(x: Biome, t: seq<Biome>)
    requires StrictlyOrdered(t)
    requires forall k | 0 <= k < |t| :: BiomeOrder(x) < BiomeOrder(t[k])
    ensures StrictlyOrdered([x] + t)
  {
    var r := [x] + t;
    forall i, j | 0 <= i < j < |r|
      ensures BiomeOrder(r[i]) < BiomeOrder(r[j])
    {
      assert r[j] == t[j - 1];
      if i > 0 {
        assert r[i] == t[i - 1];
      }
    }
  }

  /** Inserting a new biome into a strictly ordered list keeps it strictly ordered. */
  lemma {:induction false} InsertOrdered(b: Biome, bs: seq<Biome>)
    requires StrictlyOrdered(bs) && b !in bs
    ensures StrictlyOrdered(Insert(b, bs))
  {
    if bs == [] {
    } else if BiomeOrder(b) <= BiomeOrder(bs[0]) {
      assert b != bs[0];
      OrderedCons(b, bs);
    } else {
      var rest := bs[1..];
      assert b !in rest by {
        assert forall x | x in rest :: x in bs;
      }
      OrderedTail(bs);
      var tail := Insert(b, rest);
      InsertOrdered(b, rest);
      forall k | 0 <= k < |tail|
        ensures BiomeOrder(bs[0]) < BiomeOrder(tail[k])
      {
        InsertMembers(b, rest, tail[k]);
        if tail[k] in rest {
          HeadBelowTail(bs, tail[k]);
        }
      }
      OrderedCons(bs[0], tail);
    }
  }

  /** In a strictly ordered list the head sorts before everything after it. */
  lemma HeadBelowTail(bs: seq<Biome>, x: Biome)
    requires StrictlyOrdered(bs) && bs != [] && x in bs[1..]
    ensures BiomeOrder(bs[0]) < BiomeOrder(x)
  {
    var m :| 0 <= m < |bs| - 1 && bs[1..][m] == x;
    assert bs[m + 1] == x;
  }

  lemma SortedTail(bs: seq<Biome>)
    requires Sorted(bs) && bs != []
    ensures Sorted(bs[1..])
  {
    forall i, j | 0 <= i < j < |bs| - 1
      ensures BiomeOrder(bs[1..][i]) <= BiomeOrder(bs[1..][j])
    {
      assert bs[1..][i] == bs[i + 1] && bs[1..][j] == bs[j + 1];
    }
  }

  lemma SortedCons(x: Biome, t: seq<Biome>)
    requires Sorted(t)
    requires forall k | 0 <= k < |t| :: BiomeOrder(x) <= BiomeOrder(t[k])
    ensures Sorted([x] + t)
  {
    var r := [x] + t;
    forall i, j | 0 <= i < j < |r|
      ensures BiomeOrder(r[i]) <= BiomeOrder(r[j])
    {
      assert r[j] == t[j - 1];
      if i > 0 {
        assert r[i] == t[i - 1];
      }
    }
  }

  /** In a sorted list the head's key is at most that of anything after it. */
  lemma HeadAtMostTail(bs: seq<Biome>, x: Biome)
    requires Sorted(bs) && bs != [] && x in bs[1..]
    ensures BiomeOrder(bs[0]) <= BiomeOrder(x)
  {
    var m :| 0 <= m < |bs| - 1 && bs[1..][m] == x;
    assert bs[m + 1] == x;
  }

  /** Inserting any biome, repeated or not, into a sorted list keeps it sorted. */
  lemma {:induction false} InsertSorted(b: Biome, bs: seq<Biome>)
    requires Sorted(bs)
    ensures Sorted(Insert(b, bs))
  {
    if bs == [] {
    } else if BiomeOrder(b) <= BiomeOrder(bs[0]) {
      forall k | 0 <= k < |bs|
        ensures BiomeOrder(b) <= BiomeOrder(bs[k])
      {
        if k > 0 {
          assert BiomeOrder(bs[0]) <= BiomeOrder(bs[k]);
        }
      }
      SortedCons(b, bs);
    } else {
      var rest := bs[1..];
      SortedTail(bs);
      var tail := Insert(b, rest);
      InsertSorted(b, rest);
      forall k | 0 <= k < |tail|
        ensures BiomeOrder(bs[0]) <= BiomeOrder(tail[k])
      {
        InsertMembers(b, rest, tail[k]);
        if tail[k] in rest {
          HeadAtMostTail(bs, tail[k]);
        }
      }
      SortedCons(bs[0], tail);
    }
  }

  /** sort_by_key on the legend sort key, as an insertion sort. */
  method SortByOrder(bs: seq<Biome>) returns (sorted: seq<Biome>)
    ensures multiset(sorted) == multiset(bs)
    ensures Sorted(sorted)
    ensures Distinct(bs) ==> StrictlyOrdered(sorted)
  {
    sorted := [];
    for k := 0 to |bs|
      invariant SortedPrefix(bs, k, sorted)
    {
      SortStep(bs, k, sorted);
      sorted := Insert(bs[k], sorted);
    }
    assert bs[..|bs|] == bs;
  }

  /** The insertion sort's loop invariant: `sorted` is bs[..k] in key order. */
  predicate SortedPrefix(bs: seq<Biome>, k: int, sorted: seq<Biome>)
    requires 0 <= k <= |bs|
  {
    && multiset(sorted) == multiset(bs[..k])
    && Sorted(sorted)
    && (Distinct(bs) ==> StrictlyOrdered(sorted))
  }

  /** Inserting bs[k] extends the sorted prefix by one element. */
  lemma SortStep(bs: seq<Biome>, k: int, sorted: seq<Biome>)
    requires 0 <= k < |bs| && SortedPrefix(bs, k, sorted)
    ensures SortedPrefix(bs, k + 1, Insert(bs[k], sorted))
  {
    assert bs[..k + 1] == bs[..k] + [bs[k]];
    InsertSorted(bs[k], sorted);
    if Distinct(bs) {
      assert bs[k] !in bs[..k];
      assert bs[k] !in multiset(sorted);
      InsertOrdered(bs[k], sorted);
    }
  }

  /** Position i of the declaration list has sort key i. */
  lemma OrderOfListed(i: int)
    requires 0 <= i < |AllBiomes|
    ensures BiomeOrder(AllBiomes[i]) == i
  {
    BiomeOrderBijective();
  }

  /** Biomes of `present` among AllBiomes[i..], in declaration order. */
  function CanonicalFrom(present: set<Biome>, i: nat): (r: seq<Biome>)
    requires i <= |AllBiomes|
    ensures StrictlyOrdered(r)
    ensures forall k | 0 <= k < |r| :: i <= BiomeOrder(r[k])
    ensures forall b :: b in r <==> b in present && i <= BiomeOrder(b)
    decreases |AllBiomes| - i
  {
    if i == |AllBiomes| then []
    else
      var rest := CanonicalFrom(present, i + 1);
      OrderOfListed(i);
      if AllBiomes[i] in present then
        OrderedCons(AllBiomes[i], rest);
        [AllBiomes[i]] + rest
      else rest
  }

  /** The biomes of a set in declaration order: what the legend should list. */
  function Canonical(present: set<Biome>): (r: seq<Biome>)
    ensures StrictlyOrdered(r)
    ensures forall b :: b in r <==> b in present
  {
    CanonicalFrom(present, 0)
  }

  /** Two strictly ordered lists with the same members start with the same biome. */
  lemma SameHead(a: seq<Biome>, b: seq<Biome>)
    requires StrictlyOrdered(a) && StrictlyOrdered(b) && a != [] && b != []
    requires forall x :: x in a <==> x in b
    ensures a[0] == b[0]
  {
    assert a[0] in a && b[0] in b;
    var k :| 0 <= k < |b| && b[k] == a[0];
    var m :| 0 <= m < |a| && a[m] == b[0];
    assert BiomeOrder(a[0]) == BiomeOrder(b[0]);
  }

  /** ... so a member of one list's tail is a member of the other's. */
  lemma TailMember(a: seq<Biome>, b: seq<Biome>, x: Biome)
    requires StrictlyOrdered(a) && a != [] && b != [] && a[0] == b[0]
    requires forall x :: x in a ==> x in b
    requires x in a[1..]
    ensures x in b[1..]
  {
    var k :| 0 <= k < |a[1..]| && a[1..][k] == x;
    assert a[k + 1] == x && x in a;
    assert BiomeOrder(a[0]) < BiomeOrder(a[k + 1]);
    assert x != b[0];
    var m :| 0 <= m < |b| && b[m] == x;
    assert b[1..][m - 1] == x;
  }

  /** Two strictly ordered lists with the same members are the same list. */
  lemma {:induction false} OrderedUnique(a: seq<Biome>, b: seq<Biome>)
    requires StrictlyOrdered(a) && StrictlyOrdered(b)
    requires forall x :: x in a <==> x in b
    ensures a == b
  {
    if a != [] {
      assert a[0] in a;
    }
    if b != [] {
      assert b[0] in b;
    }
    if a != [] && b != [] {
      SameHead(a, b);
      forall x
        ensures x in a[1..] <==> x in b[1..]
      {
        if x in a[1..] {
          TailMember(a, b, x);
        }
        if x in b[1..] {
          TailMember(b, a, x);
        }
      }
      OrderedTail(a);
      OrderedTail(b);
      OrderedUnique(a[1..], b[1..]);
      assert a == [a[0]] + a[1..] && b == [b[0]] + b[1..];
    }
  }

  /**
   * The legend's list: each biome that occurs on the map exactly once, in
   * declaration order.
   */
  method LegendBiomes(w: World) returns (biomes: seq<Biome>)
    ensures biomes == Canonical(set t | t in w.tiles :: t.biome)
    ensures Distinct(biomes) && StrictlyOrdered(biomes)
    ensures forall b :: b in biomes <==> exists t | t in w.tiles :: t.biome == b
  {
    var seen := CollectBiomes(w.tiles);
    biomes := SortByOrder(seen);
    var present := set t | t in w.tiles :: t.biome;
    forall b
      ensures b in biomes <==> b in present
    {
      assert b in biomes <==> b in multiset(seen);
      if b in present {
        var t :| t in w.tiles && t.biome == b;
        var i :| 0 <= i < |w.tiles| && w.tiles[i] == t;
        assert TileBiomes(w.tiles)[i] == b;
      }
      if b in seen {
        var i :| 0 <= i < |w.tiles| && TileBiomes(w.tiles)[i] == b;
        assert w.tiles[i] in w.tiles;
      }
    }
    OrderedUnique(biomes, Canonical(present));
  }

  // ---------------------------------------------------------------------------
  // The planet label
  // ---------------------------------------------------------------------------

  predicate IsLower(c: char) {
    'a' <= c <= 'z'
  }

  /** char::to_uppercase on ASCII: a lower-case letter moves to its capital. */
  function ToUpper(c: char): (u: char)
    ensures IsLower(c) ==> 'A' <= u <= 'Z' && u as int == c as int - 32
    ensures !IsLower(c) ==> u == c
    ensures !IsLower(u)
  {
    if IsLower(c) then (c as int - 32) as char else c
  }

  /** The display name with its first character upper-cased; empty stays empty. */
  function Capitalize(s: string): (r: string)
    ensures |r| == |s|
    ensures s == [] ==> r == []
    ensures s != [] ==> r[0] == ToUpper(s[0]) && r[1..] == s[1..]
  {
    if s == [] then [] else [ToUpper(s[0])] + s[1..]
  }

  /** Capitalising twice changes nothing more. */
  lemma CapitalizeIdempotent(s: string)
    ensures Capitalize(Capitalize(s)) == Capitalize(s)
  {
    if s != [] {
      var c := Capitalize(s);
      assert c == [c[0]] + c[1..];
      assert Capitalize(c) == [ToUpper(c[0])] + c[1..];
    }
  }

  lemma CapitalizeVolcanic()
    ensures Capitalize("volcanic") == "Volcanic"
  {
  }

  // ---------------------------------------------------------------------------
  // Layout
  // ---------------------------------------------------------------------------

  const Pad: int := 14
  const FontScale: int := 2
  const CharW: int := 8 * FontScale
  const CharH: int := 8 * FontScale
  const SwatchW: int := 48
  const SwatchH: int := CharH
  const SwatchGap: int := 8
  const RowH: int := SwatchH + 6
  const MetaRowH: int := CharH + 5
  const SectionGap: int := 8
  const DividerBlock: int := SectionGap + 1 + SectionGap

  const Title: string := "BIOME LEGEND"
  const MetaKeys: seq<string> := ["Planet", "Seed", "Sea level", "Volcanic", "Circumference", "Gravity"]

  const Background: Rgb := Rgb(22, 22, 35)
  const TitleColor: Rgb := Rgb(240, 240, 240)
  const KeyColor: Rgb := Rgb(140, 155, 190)
  const ValueColor: Rgb := Rgb(220, 225, 240)
  const TextColor: Rgb := Rgb(210, 210, 210)
  const BorderColor: Rgb := Rgb(80, 80, 100)
  const DividerColor: Rgb := Rgb(55, 60, 88)

  /** The longest length among the strings, or `default` when there are none. */
  function MaxLen(ss: seq<string>, default: nat): (m: nat)
    ensures forall k | 0 <= k < |ss| :: |ss[k]| <= m
    ensures ss == [] ==> m == default
    ensures ss != [] ==> exists k | 0 <= k < |ss| :: |ss[k]| == m
  {
    if ss == [] then default
    else
      var rest := MaxLen(ss[1..], |ss[0]|);
      assert forall k | 1 <= k < |ss| :: ss[k] == ss[1..][k - 1];
      if |ss[0]| > rest then |ss[0]| else rest
  }

  lemma MetaKeyWidth()
    ensures MaxLen(MetaKeys, 0) == 13
  {
    assert |MetaKeys[4]| == 13;
  }

  function Max(a: int, b: int): int {
    if a < b then b else a
  }

  /** Width of the swatch column: swatch, gap and the longest name (ten characters when there are none). */
  function BiomeColumn(names: seq<string>): int {
    SwatchW + SwatchGap + MaxLen(names, 10) * CharW
  }

  /** Width of the metadata column: the longest key plus ": ", then the longest value. */
  function MetaColumn(values: seq<string>): int {
    (MaxLen(MetaKeys, 0) + 2 + MaxLen(values, 0)) * CharW
  }

  /** Legend image width: the widest of title, metadata and biome columns, padded on both sides. */
  function LegendWidth(names: seq<string>, values: seq<string>): (w: int)
    ensures Pad + |Title| * CharW + Pad <= w
    ensures forall k | 0 <= k < |names| :: Pad + SwatchW + SwatchGap + |names[k]| * CharW + Pad <= w
    ensures forall k | 0 <= k < |values| ::
      Pad + (MaxLen(MetaKeys, 0) + 2) * CharW + |values[k]| * CharW + Pad <= w
    ensures forall k | 0 <= k < |MetaKeys| :: Pad + (|MetaKeys[k]| + 2) * CharW <= w - Pad
    ensures w == 2 * Pad + |Title| * CharW || w == 2 * Pad + BiomeColumn(names) || w == 2 * Pad + MetaColumn(values)
  {
    Pad + Max(Max(BiomeColumn(names), MetaColumn(values)), |Title| * CharW) + Pad
  }

  /** Top of metadata row i. */
  function MetaY(i: int): int {
    Pad + CharH + DividerBlock + i * MetaRowH
  }

  /** Top of biome row j. */
  function RowY(j: int): int {
    MetaY(|MetaKeys|) + DividerBlock + j * RowH
  }

  /** Legend image height: title, two divider blocks, six metadata rows, one row per biome. */
  function LegendHeight(n: nat): (h: int)
    ensures h == 204 + 22 * n
    ensures h == RowY(n) + Pad
  {
    Pad + CharH + DividerBlock + |MetaKeys| * MetaRowH + DividerBlock + n * RowH + Pad
  }

  /** Biome rows stack without overlap, and every swatch ends inside the bottom padding. */
  lemma RowsFit(n: nat, j: int, k: int)
    requires 0 <= j < k < n
    ensures RowY(j) + SwatchH < RowY(k)
    ensures RowY(k) + SwatchH <= LegendHeight(n) - Pad
    ensures MetaY(|MetaKeys| - 1) + CharH < RowY(0)
  {
  }

  // ---------------------------------------------------------------------------
  // Drawing
  // ---------------------------------------------------------------------------

  /** Divider: one row of pixels across the image, inset by the padding on both sides. */
  method DrawDivider(img: Image, y: int) returns (out: Image)
    requires img.Valid() && 0 <= y < img.height
    ensures out.Valid() && out.width == img.width && out.height == img.height
    ensures forall px, py | out.InBounds(px, py) ::
      out.At(px, py) == if py == y && Pad <= px < img.width - Pad then DividerColor else img.At(px, py)
  {
    out := img;
    var right := if img.width - Pad >= Pad then img.width - Pad else Pad;
    for x := Pad to right
      invariant out.Valid() && out.width == img.width && out.height == img.height
      invariant forall px, py | out.InBounds(px, py) ::
        out.At(px, py) == if py == y && Pad <= px < x then DividerColor else img.At(px, py)
    {
      out := Put(out, x, y, DividerColor);
    }
  }

  /** (px, py) lies on the one-pixel border of the w x h rectangle at (x, y). */
  predicate OnBorder(px: int, py: int, x: int, y: int, w: int, h: int) {
    InRect(px, py, x, y, w, h) && (px == x || px == x + w - 1 || py == y || py == y + h - 1)
  }

  /** outline_rect: the border of a rectangle that lies wholly inside the image. */
  method OutlineRect(img: Image, x: int, y: int, w: int, h: int, color: Rgb) returns (out: Image)
    requires img.Valid() && 0 <= x && 0 <= y && 1 <= w && 1 <= h
    requires x + w <= img.width && y + h <= img.height
    ensures out.Valid() && out.width == img.width && out.height == img.height
    ensures forall px, py | out.InBounds(px, py) ::
      out.At(px, py) == if OnBorder(px, py, x, y, w, h) then color else img.At(px, py)
  {
    var edges := HorizontalEdges(img, x, y, w, h, color);
    out := VerticalEdges(img, edges, x, y, w, h, color);
  }

  /** The top and bottom rows of the outline. */
  method HorizontalEdges(img: Image, x: int, y: int, w: int, h: int, color: Rgb) returns (out: Image)
    requires img.Valid() && 0 <= x && 0 <= y && 1 <= w && 1 <= h
    requires x + w <= img.width && y + h <= img.height
    ensures out.Valid() && out.width == img.width && out.height == img.height
    ensures forall px, py | out.InBounds(px, py) ::
      out.At(px, py) == if x <= px < x + w && (py == y || py == y + h - 1) then color else img.At(px, py)
  {
    out := img;
    for dx := 0 to w
      invariant out.Valid() && out.width == img.width && out.height == img.height
      invariant forall px, py | out.InBounds(px, py) ::
        out.At(px, py) == if x <= px < x + dx && (py == y || py == y + h - 1) then color else img.At(px, py)
    {
      out := Put(out, x + dx, y, color);
      out := Put(out, x + dx, y + h - 1, color);
    }
  }

  /** The left and right columns of the outline, drawn over the horizontal edges. */
  method VerticalEdges(img: Image, edges: Image, x: int, y: int, w: int, h: int, color: Rgb)
    returns (out: Image)
    requires img.Valid() && edges.Valid() && 0 <= x && 0 <= y && 1 <= w && 1 <= h
    requires edges.width == img.width && edges.height == img.height
    requires x + w <= img.width && y + h <= img.height
    requires forall px, py | edges.InBounds(px, py) ::
      edges.At(px, py) == if x <= px < x + w && (py == y || py == y + h - 1) then color else img.At(px, py)
    ensures out.Valid() && out.width == img.width && out.height == img.height
    ensures forall px, py | out.InBounds(px, py) ::
      out.At(px, py) == if OnBorder(px, py, x, y, w, h) then color else img.At(px, py)
  {
    out := edges;
    for dy := 0 to h
      invariant out.Valid() && out.width == img.width && out.height == img.height
      invariant forall px, py | out.InBounds(px, py) ::
        out.At(px, py) ==
          if (x <= px < x + w && (py == y || py == y + h - 1)) || ((px == x || px == x + w - 1) && y <= py < y + dy)
          then color else img.At(px, py)
    {
      out := Put(out, x, y + dy, color);
      out := Put(out, x + w - 1, y + dy, color);
    }
  }

  /** Inside the border of biome row j's swatch. */
  predicate InSwatch(px: int, py: int, j: int) {
    InRect(px, py, Pad + 1, RowY(j) + 1, SwatchW - 2, SwatchH - 2)
  }

  /** The legend names of a biome list. */
  function Names(bs: seq<Biome>): (names: seq<string>)
    ensures |names| == |bs| && forall k | 0 <= k < |bs| :: names[k] == BiomeName(bs[k])
  {
    seq(|bs|, k requires 0 <= k < |bs| => BiomeName(bs[k]))
  }

  /** Title, metadata rows and the two dividers, drawn on a legend-sized canvas. */
  method DrawHeading(img: Image, font: char -> Option<Glyph>, values: seq<string>) returns (out: Image)
    requires img.Valid() && |values| == |MetaKeys|
    requires Pad + |Title| * CharW + Pad <= img.width && RowY(0) <= img.height
    ensures out.Valid() && out.width == img.width && out.height == img.height
  {
    var titleX := (img.width - |Title| * CharW) / 2;
    out := DrawStr(img, font, Title, titleX, Pad, TitleColor);
    out := DrawDivider(out, Pad + CharH + SectionGap);
    out := DrawMetaRows(out, font, values, Pad + (MaxLen(MetaKeys, 0) + 2) * CharW);
    out := DrawDivider(out, MetaY(|MetaKeys|) + SectionGap);
  }

  /** One "key: value" row per metadata entry, values starting at column valueX. */
  method DrawMetaRows(img: Image, font: char -> Option<Glyph>, values: seq<string>, valueX: int)
    returns (out: Image)
    requires img.Valid() && |values| == |MetaKeys| && 0 <= valueX
    ensures out.Valid() && out.width == img.width && out.height == img.height
  {
    out := img;
    var y := MetaY(0);
    for i := 0 to |MetaKeys|
      invariant out.Valid() && out.width == img.width && out.height == img.height
      invariant y == MetaY(i)
    {
      out := DrawMetaRow(out, font, MetaKeys[i], values[i], valueX, y);
      y := y + MetaRowH;
    }
  }

  /** A key with its colon, then the value starting at column valueX. */
  method DrawMetaRow(img: Image, font: char -> Option<Glyph>, key: string, value: string, valueX: int, y: int)
    returns (out: Image)
    requires img.Valid() && 0 <= valueX && 0 <= y
    ensures out.Valid() && out.width == img.width && out.height == img.height
  {
    out := DrawStr(img, font, key + ": ", Pad, y, KeyColor);
    out := DrawStr(out, font, value, valueX, y, ValueColor);
  }

  /** One row per biome, from RowY(0) down; every swatch shows its biome's colour. */
  method PaintRows(img: Image, font: char -> Option<Glyph>, biomes: seq<Biome>) returns (out: Image)
    requires img.Valid() && Pad + SwatchW <= img.width && RowY(|biomes|) <= img.height
    ensures out.Valid() && out.width == img.width && out.height == img.height
    ensures forall j, px, py | 0 <= j < |biomes| && InSwatch(px, py, j) ::
      out.InBounds(px, py) && out.At(px, py) == BiomeColor(biomes[j])
  {
    out := img;
    for j := 0 to |biomes|
      invariant out.Valid() && out.width == img.width && out.height == img.height
      invariant forall k, px, py | 0 <= k < j && InSwatch(px, py, k) ::
        out.InBounds(px, py) && out.At(px, py) == BiomeColor(biomes[k])
    {
      out := PaintRow(out, font, biomes[j], j);
      forall k, px, py | 0 <= k < j && InSwatch(px, py, k)
        ensures !InRect(px, py, Pad, RowY(j), img.width, SwatchH)
      {
      }
    }
  }

  /**
   * export_legend_png without the file write. The bitmap font, the planet
   * type's display name and the five formatted readings (seed, sea level,
   * volcanic intensity, circumference, gravity) are inputs.
   */
  method ExportLegend(w: World, font: char -> Option<Glyph>, planetName: string, readings: seq<string>)
    returns (img: Image, biomes: seq<Biome>)
    requires |readings| == 5
    ensures biomes == Canonical(set t | t in w.tiles :: t.biome)
    ensures img.Valid()
    ensures img.width == LegendWidth(Names(biomes), [Capitalize(planetName)] + readings)
    ensures img.height == LegendHeight(|biomes|)
    ensures forall j, px, py | 0 <= j < |biomes| && InSwatch(px, py, j) ::
      img.InBounds(px, py) && img.At(px, py) == BiomeColor(biomes[j])
  {
    biomes := LegendBiomes(w);
    var values := [Capitalize(planetName)] + readings;
    img := Canvas(Names(biomes), values, |biomes|);
    img := DrawHeading(img, font, values);
    img := PaintRows(img, font, biomes);
  }

  /** The background-filled legend canvas, with room for the title and every biome row. */
  method Canvas(names: seq<string>, values: seq<string>, n: nat) returns (img: Image)
    ensures img.Valid()
    ensures img.width == LegendWidth(names, values) && img.height == LegendHeight(n)
    ensures Pad + |Title| * CharW + Pad <= img.width && Pad + SwatchW <= img.width
    ensures RowY(n) <= img.height
  {
    img := Filled(LegendWidth(names, values), LegendHeight(n), Background);
  }

  /**
   * One biome row: the swatch, its border and the name. Only the row's band
   * of pixels changes, and the swatch inside its border shows the biome colour.
   */
  method PaintRow(img: Image, font: char -> Option<Glyph>, b: Biome, j: nat) returns (out: Image)
    requires img.Valid() && Pad + SwatchW <= img.width && RowY(j) + SwatchH <= img.height
    ensures out.Valid() && out.width == img.width && out.height == img.height
    ensures forall px, py | out.InBounds(px, py) && !InRect(px, py, Pad, RowY(j), img.width, SwatchH) ::
      out.At(px, py) == img.At(px, py)
    ensures forall px, py | InSwatch(px, py, j) :: out.InBounds(px, py) && out.At(px, py) == BiomeColor(b)
  {
    var y := RowY(j);
    var nameX := Pad + SwatchW + SwatchGap;
    out := FillRect(img, Pad, y, SwatchW, SwatchH, BiomeColor(b));
    out := OutlineRect(out, Pad, y, SwatchW, SwatchH, BorderColor);
    out := DrawStr(out, font, BiomeName(b), nameX, y, TextColor);
    forall px, py | out.InBounds(px, py) && StrCovers(font, BiomeName(b), px - nameX, py - y)
      ensures InRect(px, py, Pad, y, img.width, SwatchH) && !InSwatch(px, py, j)
    {
      var g := font(BiomeName(b)[(px - nameX) / 16]);
      assert GlyphCovers(g.value, (px - nameX) % 16, py - y);
    }
  }
}
