/** How a collage view lays out a node: the shares its children get of the
    split axis, the sizes it hands them, the divider positions, and the
    drag that moves one divider. */
module CollageLayout {
  import opened Platform
  import opened RealSeq
  import opened Collage

  datatype Size = Size(width: real, height: real)

  /** A pointer location inside the view. */
  datatype Point = Point(x: real, y: real)

  /** A node whose weights add up to zero cannot be divided up. */
  datatype LayoutError = InvalidTree

  datatype Result<T> = Ok(value: T) | Err(error: LayoutError)

  function Min(a: real, b: real): real { if b < a then b else a }

  function Max(a: real, b: real): real { if a < b then b else a }

  // ---------------------------------------------------------------------
  // Divider count and denominator

  /** `dividerCount`: one divider between each pair of neighbouring children. */
  function DividerCount(t: CollageType): (r: int)
    ensures r == |FactorsArray(t)| - 1
    ensures IsData(t) ==> r == -1
  {
    |Content(t)| - 1
  }

  /** `denom`: the children's weights added up from the left. */
  function Denom(t: CollageType): (r: real)
    ensures r == Sum(Weights(Content(t)))
    ensures IsData(t) ==> r == 0.0
  {
    DenomOfIsSum(Content(t));
    DenomOf(Content(t))
  }

  function DenomOf(cs: seq<CollageType>): real
  {
    if cs == [] then 0.0 else DenomOf(cs[..|cs| - 1]) + Length(cs[|cs| - 1])
  }

  lemma {:induction false} DenomOfIsSum(cs: seq<CollageType>)
    ensures DenomOf(cs) == Sum(Weights(cs))
  {
    if cs != [] {
      var n := |cs| - 1;
      assert Weights(cs)[..n] == Weights(cs[..n]);
      DenomOfIsSum(cs[..n]);
    }
  }

  /** There is one factor per child, factor `i` is the denominator of the
      first `i + 1` children, so the last factor is the denominator; and
      there is one divider fewer than factors. */
  lemma FactorsArePrefixDenoms(t: CollageType)
    ensures |FactorsArray(t)| == |Content(t)|
    ensures forall i :: 0 <= i < |Content(t)| ==> FactorsArray(t)[i] == DenomOf(Content(t)[..i + 1])
    ensures |Content(t)| > 0 ==> FactorsArray(t)[|Content(t)| - 1] == Denom(t)
    ensures DividerCount(t) == |FactorsArray(t)| - 1
  {
    var cs := Content(t);
    FactorsArrayShape(t);
    forall i | 0 <= i < |cs| ensures FactorsArray(t)[i] == DenomOf(cs[..i + 1]) {
      DenomOfIsSum(cs[..i + 1]);
    }
    if |cs| > 0 {
      assert cs[..|cs|] == cs;
    }
  }

  /** Every weight positive and at least one child: a positive denominator. */
  lemma DenomPositive(t: CollageType)
    requires WellFormed(t) && !IsData(t)
    ensures 0.0 < Denom(t)
  {
    var cs := Content(t);
    DenomOfIsSum(cs);
    forall k | 0 <= k < |cs| ensures 0.0 < Weights(cs)[k] {
      AllWellFormedAt(cs, k);
    }
    SumPositive(Weights(cs));
  }

  // ---------------------------------------------------------------------
  // Shares and child sizes

  /** The share of child `i`: its factor less the previous one; the first
      child's share is its factor. */
  function Share(f: seq<real>, i: nat): real
    requires i < |f|
  {
    if i == 0 then f[0] else f[i] - f[i - 1]
  }

  function Shares(f: seq<real>): (r: seq<real>)
    ensures |r| == |f| && forall i :: 0 <= i < |f| ==> r[i] == Share(f, i)
  {
    seq(|f|, i requires 0 <= i < |f| => Share(f, i))
  }

  /** Read back from freshly computed factors, each child's share is its own weight. */
  lemma FreshSharesAreWeights(t: CollageType)
    ensures |FactorsArray(t)| == |Content(t)|
    ensures forall i :: 0 <= i < |Content(t)| ==> Share(FactorsArray(t), i) == Content(t)[i].weight
  {
    var ws := Weights(Content(t));
    var f := FactorsArray(t);
    forall i | 0 <= i < |ws| ensures Share(f, i) == ws[i] {
      assert f[i] == Sum(ws[..i + 1]);
      assert ws[..i + 1][..i] == ws[..i];
      assert Sum(ws[..i + 1]) == Sum(ws[..i]) + ws[i];
      if i == 0 {
        assert ws[..0] == [];
      } else {
        assert f[i - 1] == Sum(ws[..i]);
      }
    }
  }

  /** The shares telescope: together they add up to the last factor. */
  lemma {:induction false} SharesTelescope(f: seq<real>)
    requires f != []
    ensures Sum(Shares(f)) == f[|f| - 1]
  {
    var n := |f| - 1;
    if n == 0 {
      assert Shares(f) == [f[0]];
      SumSingleton(f[0]);
    } else {
      assert Shares(f)[..n] == Shares(f[..n]);
      SharesTelescope(f[..n]);
    }
  }

  /** `getSize(with:)`: a row divides its height, a column its width; the
      other side stays as it is. */
  function GetSize(t: CollageType, size: Size, fraction: real): (r: Size)
    ensures t.Row? ==> r.width == size.width && r.height == size.height * fraction
    ensures !t.Row? ==> r.height == size.height && r.width == size.width * fraction
  {
    if IsRow(t) then Size(size.width, size.height * fraction)
    else Size(size.width * fraction, size.height)
  }

  /** The sizes a row or column hands its children: child `i` gets the
      fraction `share / denom` of the split axis. A leaf has no children;
      a zero denominator is an invalid tree. */
  function Partition(t: CollageType, size: Size, f: seq<real>): (r: Result<seq<Size>>)
    requires |Content(t)| <= |f|
    ensures r.Err? <==> !IsData(t) && Denom(t) == 0.0
    ensures r.Ok? ==> |r.value| == |Content(t)|
  {
    var n := |Content(t)|;
    if IsData(t) then Ok([])
    else if Denom(t) == 0.0 then Err(InvalidTree)
    else Ok(seq(n, i requires 0 <= i < n => GetSize(t, size, Share(f, i) / Denom(t))))
  }

  /** Factors in the shape the view keeps them: one per child, the last one
      equal to the denominator. */
  predicate Settled(t: CollageType, f: seq<real>)
  {
    |f| == |Content(t)| && (f != [] ==> f[|f| - 1] == Denom(t))
  }

  lemma FreshFactorsSettled(t: CollageType)
    ensures Settled(t, FactorsArray(t))
  {
    FactorsArePrefixDenoms(t);
  }

  function Heights(ss: seq<Size>): (r: seq<real>)
    ensures |r| == |ss| && forall i :: 0 <= i < |ss| ==> r[i] == ss[i].height
  {
    seq(|ss|, i requires 0 <= i < |ss| => ss[i].height)
  }

  function Widths(ss: seq<Size>): (r: seq<real>)
    ensures |r| == |ss| && forall i :: 0 <= i < |ss| ==> r[i] == ss[i].width
  {
    seq(|ss|, i requires 0 <= i < |ss| => ss[i].width)
  }

  /** Extents proportional to settled shares add up to the whole axis. */
  lemma {:induction false} ProportionalExtentsSum(f: seq<real>, along: seq<real>, axis: real, d: real)
    requires f != [] && f[|f| - 1] == d && d != 0.0 && |along| == |f|
    requires forall i :: 0 <= i < |f| ==> along[i] == axis * (Share(f, i) / d)
    ensures Sum(along) == axis
  {
    var c := axis / d;
    var shares := Shares(f);
    forall i | 0 <= i < |f| ensures along[i] == c * shares[i] {
      RegroupQuotient(axis, Share(f, i), d);
    }
    SumScaled(shares, along, c);
    SharesTelescope(f);
    QuotientTimesDivisor(axis, d);
  }

  lemma RegroupQuotient(a: real, s: real, d: real)
    requires d != 0.0
    ensures a * (s / d) == (a / d) * s
  {
  }

  lemma QuotientTimesDivisor(a: real, d: real)
    requires d != 0.0
    ensures (a / d) * d == a
  {
  }

  /** The children of a row keep its width and their heights add up to its
      height; the children of a column keep its height and their widths add
      up to its width. */
  lemma PartitionFills(t: CollageType, size: Size, f: seq<real>)
    requires Settled(t, f) && !IsData(t) && Denom(t) != 0.0
    ensures Partition(t, size, f).Ok?
    ensures var ss := Partition(t, size, f).value;
      if t.Row? then
        (forall i :: 0 <= i < |ss| ==> ss[i].width == size.width) && Sum(Heights(ss)) == size.height
      else
        (forall i :: 0 <= i < |ss| ==> ss[i].height == size.height) && Sum(Widths(ss)) == size.width
  {
    var ss := Partition(t, size, f).value;
    var d := Denom(t);
    if t.Row? {
      ProportionalExtentsSum(f, Heights(ss), size.height, d);
    } else {
      ProportionalExtentsSum(f, Widths(ss), size.width, d);
    }
  }

  /** Laid out from freshly computed factors, each child's extent along the
      split axis is its weight's part of the denominator. */
  lemma FreshPartitionIsProportional(t: CollageType, size: Size, i: nat)
    requires !IsData(t) && Denom(t) != 0.0 && i < |Content(t)|
    ensures |Content(t)| <= |FactorsArray(t)|
    ensures Partition(t, size, FactorsArray(t)).Ok?
    ensures var s := Partition(t, size, FactorsArray(t)).value[i];
      var w := Content(t)[i].weight;
      if t.Row? then s == Size(size.width, size.height * (w / Denom(t)))
      else s == Size(size.width * (w / Denom(t)), size.height)
  {
    var f := FactorsArray(t);
    FreshShareIsWeight(t, i);
    var p := Partition(t, size, f);
    assert p.value[i] == GetSize(t, size, Share(f, i) / Denom(t));
  }

  lemma FreshShareIsWeight(t: CollageType, i: nat)
    requires i < |Content(t)|
    ensures |FactorsArray(t)| == |Content(t)|
    ensures Share(FactorsArray(t), i) == Content(t)[i].weight
  {
    FreshSharesAreWeights(t);
  }

  /** Scaling every child weight by `k` scales `denom` by `k`. */
  lemma DenomScaled(t: CollageType, u: CollageType, k: real)
    requires |Content(u)| == |Content(t)|
    requires forall i :: 0 <= i < |Content(t)| ==> Content(u)[i].weight == k * Content(t)[i].weight
    ensures Denom(u) == k * Denom(t)
  {
    SumScaled(Weights(Content(t)), Weights(Content(u)), k);
  }

  lemma CancelCommonFactor(wu: real, du: real, w: real, d: real, k: real)
    requires k != 0.0 && d != 0.0 && wu == k * w && du == k * d
    ensures wu / du == w / d
  {
  }

  /** The fresh layout depends only on the weights' proportions: scaling
      every child weight by a positive `k` gives every child the same size. */
  lemma ChildScaleInvariant(t: CollageType, u: CollageType, k: real, size: Size, i: nat)
    requires !IsData(t) && !IsData(u) && t.Row? == u.Row?
    requires 0.0 < k && Denom(t) != 0.0 && i < |Content(t)|
    requires |Content(u)| == |Content(t)|
    requires forall j :: 0 <= j < |Content(t)| ==> Content(u)[j].weight == k * Content(t)[j].weight
    ensures Partition(u, size, FactorsArray(u)).Ok?
    ensures Partition(u, size, FactorsArray(u)).value[i] == Partition(t, size, FactorsArray(t)).value[i]
  {
    var wt, wu := Content(t)[i].weight, Content(u)[i].weight;
    DenomScaled(t, u, k);
    CancelCommonFactor(wu, Denom(u), wt, Denom(t), k);
    FreshPartitionIsProportional(t, size, i);
    FreshPartitionIsProportional(u, size, i);
  }

  // ---------------------------------------------------------------------
  // Dividers and the drag

  /** The length of the axis a node splits: a row's height, a column's width. */
  function SplitLength(t: CollageType, size: Size): real
  {
    if IsRow(t) then size.height else size.width
  }

  /** The pointer coordinate along that axis. */
  function SplitCoordinate(t: CollageType, p: Point): real
  {
    if IsRow(t) then p.y else p.x
  }

  /** Where divider `index` sits along the split axis, `size * factor / denom`. */
  function DividerOffset(t: CollageType, size: Size, f: seq<real>, index: nat): (r: Result<real>)
    requires index < |f|
    ensures r.Err? <==> Denom(t) == 0.0
  {
    if Denom(t) == 0.0 then Err(InvalidTree)
    else Ok(SplitLength(t, size) * (f[index] / Denom(t)))
  }

  /** The factor a drag to coordinate `pt` gives the divider:
      `min(max(0, pt / (axis / denom)), denom)`. With a zero denominator the
      floating-point step `axis / 0` is infinite and the ratio is 0. */
  function DragFactor(pt: real, axis: real, denom: real): (r: real)
    requires axis != 0.0
    ensures r <= denom
    ensures 0.0 <= denom ==> 0.0 <= r
    ensures denom < 0.0 ==> r == denom
  {
    var ratio := if denom == 0.0 then 0.0 else pt / (axis / denom);
    Min(Max(0.0, ratio), denom)
  }

  /** On a view with positive extent and weights, the divider lands exactly
      under the pointer, held to the view: offset `clamp(pt, 0, axis)`. */
  lemma DragFollowsPointer(pt: real, axis: real, denom: real)
    requires 0.0 < axis && 0.0 < denom
    ensures axis * (DragFactor(pt, axis, denom) / denom) == Min(Max(0.0, pt), axis)
  {
    var c := axis / denom;
    var ratio := pt / c;
    var r := DragFactor(pt, axis, denom);
    PositiveQuotient(axis, denom);
    assert r == Min(Max(0.0, ratio), denom);
    RegroupQuotient(axis, r, denom);
    DivideByQuotient(axis, denom);
    if pt <= 0.0 {
      QuotientMonotone(pt, 0.0, c);
    } else if axis <= pt {
      QuotientMonotone(axis, pt, c);
      QuotientTimesDivisor(axis, denom);
    } else {
      QuotientMonotone(pt, axis, c);
      QuotientMonotone(0.0, pt, c);
      QuotientTimesDivisor(pt, c);
    }
  }

  lemma PositiveQuotient(a: real, d: real)
    requires 0.0 < a && 0.0 < d
    ensures 0.0 < a / d
  {
  }

  lemma QuotientMonotone(x: real, y: real, c: real)
    requires x <= y && 0.0 < c
    ensures x / c <= y / c
  {
    assert y / c - x / c == (y - x) / c;
  }

  lemma DivideByQuotient(a: real, d: real)
    requires 0.0 < a && 0.0 < d
    ensures a / (a / d) == d
  {
  }

  /** A drag changes only the dragged factor, which lands in `[0, denom]`
      when the denominator is not negative; since the last factor is never
      a divider's, the factors stay settled. */
  lemma DragKeepsSettled(t: CollageType, f: seq<real>, index: nat, pt: real, axis: real)
    requires Settled(t, f) && index + 1 < |f| && axis != 0.0
    ensures var g := f[index := DragFactor(pt, axis, Denom(t))];
      Settled(t, g)
      && (forall j :: 0 <= j < |f| && j != index ==> g[j] == f[j])
      && (0.0 <= Denom(t) ==> 0.0 <= g[index] <= Denom(t))
  {
  }

  /** All factors inside `[0, denom]`. */
  predicate FactorsWithin(t: CollageType, f: seq<real>)
  {
    forall i :: 0 <= i < |f| ==> 0.0 <= f[i] <= Denom(t)
  }

  /** No child of `t` has a negative weight. */
  predicate NoNegativeWeight(t: CollageType)
  {
    forall c :: c in Content(t) ==> 0.0 <= c.weight
  }

  /** A factor in `[0, denom]` puts its divider inside the view. */
  lemma DividerWithinView(t: CollageType, size: Size, f: seq<real>, index: nat)
    requires index < |f| && FactorsWithin(t, f)
    requires 0.0 < Denom(t) && 0.0 <= SplitLength(t, size)
    ensures DividerOffset(t, size, f, index).Ok?
    ensures 0.0 <= DividerOffset(t, size, f, index).value <= SplitLength(t, size)
  {
    var o := DividerOffset(t, size, f, index).value;
    FractionOfExtent(o, SplitLength(t, size), f[index], Denom(t));
  }

  lemma FractionOfExtent(o: real, a: real, x: real, d: real)
    requires 0.0 <= a && 0.0 < d && 0.0 <= x <= d && o == a * (x / d)
    ensures 0.0 <= o <= a
  {
    var q := x / d;
    assert q * d == x;
    assert 0.0 <= q <= 1.0;
    assert a - a * q == a * (1.0 - q);
  }

  lemma ScaleMonotone(a: real, b: real, c: real)
    requires a <= b && 0.0 < c
    ensures a * c <= b * c
  {
    assert b * c - a * c == (b - a) * c;
  }

  /** With no negative weight, fresh factors lie in `[0, denom]`, and every
      drag keeps them there: every divider stays inside the view. */
  lemma FactorsStayWithin(t: CollageType, f: seq<real>, index: nat, pt: real, axis: real)
    requires NoNegativeWeight(t)
    requires index < |f| && axis != 0.0
    ensures FactorsWithin(t, FactorsArray(t))
    ensures FactorsWithin(t, f) ==> FactorsWithin(t, f[index := DragFactor(pt, axis, Denom(t))])
  {
    FactorsMonotone(t);
    FactorsArePrefixDenoms(t);
    DenomOfIsSum(Content(t));
    var ws := Weights(Content(t));
    forall k | 0 <= k < |ws| ensures 0.0 <= ws[k] {
      assert Content(t)[k] in Content(t);
    }
    PrefixSumsBounded(ws, 0, 0);
    assert ws[..0] == [];
  }

  /** The drag clamps each divider to `[0, denom]` only, not between its
      neighbours: on three equal children, dragging the first divider to the
      far end makes the middle child's share negative. */
  lemma DragMayCrossNeighbour()
    ensures var t := Row(ViewContainer([Slot(SystemRed, 1.0, 1), Slot(SystemBlue, 1.0, 2), Slot(SystemGray, 1.0, 3)], Uuid(0)), 1.0);
      var g := FactorsArray(t)[0 := DragFactor(3.0, 3.0, Denom(t))];
      FactorsArray(t) == [1.0, 2.0, 3.0] && g == [3.0, 2.0, 3.0] && Share(g, 1) == -1.0
  {
    var t := Row(ViewContainer([Slot(SystemRed, 1.0, 1), Slot(SystemBlue, 1.0, 2), Slot(SystemGray, 1.0, 3)], Uuid(0)), 1.0);
    var cs := Content(t);
    var ws := Weights(cs);
    assert ws == [1.0, 1.0, 1.0];
    assert ws[..1] == [1.0] && ws[..2] == [1.0, 1.0] && ws[..3] == ws;
    SumSingleton(1.0);
    assert ws[..2][..1] == [1.0] && ws[..3][..2] == [1.0, 1.0];
    assert Sum(ws[..2]) == Sum(ws[..2][..1]) + ws[1] == 2.0;
    assert Sum(ws[..3]) == Sum(ws[..3][..2]) + ws[2] == 3.0;
    DenomOfIsSum(cs);
  }

  // ---------------------------------------------------------------------
  // The view

  /** A collage view of one node: the size it was given, the node, and the
      live factors its dividers edit. */
  class CollageView {
    const size: Size
    const node: CollageType
    const isMini: bool
    var factors: array<real>

    /** The view's invariant: one factor per child, the last one `denom`,
      and, when no weight is negative, every factor in `[0, denom]`. */
    ghost predicate Valid()
      reads this, factors
    {
      Settled(node, factors[..])
      && (NoNegativeWeight(node) ==> FactorsWithin(node, factors[..]))
    }

    /** `init`: factors start as the node's `factorsArray`. */
    constructor (size: Size, node: CollageType, isMini: bool)
      ensures Valid() && fresh(factors)
      ensures this.size == size && this.node == node && this.isMini == isMini
      ensures factors[..] == FactorsArray(node)
    {
      var fa := FactorsArray(node);
      FactorsArePrefixDenoms(node);
      this.size := size;
      this.node := node;
      this.isMini := isMini;
      factors := new real[|fa|](i requires 0 <= i < |fa| => fa[i]);
      FreshFactorsSettled(node);
      if NoNegativeWeight(node) && fa != [] {
        FactorsStayWithin(node, fa, 0, 0.0, 1.0);
      }
    }

    /** The sizes the body hands its children, from the live factors: in
      every reachable state they fill the view along the split axis. */
    function ChildSizes(): (r: Result<seq<Size>>)
      reads this, factors
      requires Valid()
      ensures r.Err? <==> !IsData(node) && Denom(node) == 0.0
      ensures r.Ok? ==> |r.value| == |Content(node)|
      ensures r.Ok? && node.Row? ==>
        (forall i :: 0 <= i < |r.value| ==> r.value[i].width == size.width)
        && Sum(Heights(r.value)) == size.height
      ensures r.Ok? && node.Column? ==>
        (forall i :: 0 <= i < |r.value| ==> r.value[i].height == size.height)
        && Sum(Widths(r.value)) == size.width
    {
      var r := Partition(node, size, factors[..]);
      if r.Ok? && !IsData(node) then
        PartitionFills(node, size, factors[..]);
        r
      else
        r
    }

    /** Where the body draws divider `index`: inside the view whenever no
      weight is negative and the view has extent. */
    function Divider(index: nat): (r: Result<real>)
      reads this, factors
      requires Valid() && index < factors.Length
      ensures r.Err? <==> Denom(node) == 0.0
      ensures NoNegativeWeight(node) && 0.0 < Denom(node) && 0.0 <= SplitLength(node, size) ==>
        r.Ok? && 0.0 <= r.value <= SplitLength(node, size)
    {
      if NoNegativeWeight(node) && 0.0 < Denom(node) && 0.0 <= SplitLength(node, size) then
        DividerWithinView(node, size, factors[..], index);
        DividerOffset(node, size, factors[..], index)
      else
        DividerOffset(node, size, factors[..], index)
    }

    /** The drag's `onChanged`: moves divider `index` to the pointer's
      coordinate along the split axis, clamped to `[0, denom]`. */
    method DragChanged(index: nat, location: Point)
      requires Valid() && !IsData(node)
      requires index + 1 < factors.Length
      requires SplitLength(node, size) != 0.0
      modifies factors
      ensures Valid()
      ensures factors[..] == old(factors[..])[index :=
        DragFactor(SplitCoordinate(node, location), SplitLength(node, size), Denom(node))]
    {
      var denom := Denom(node);
      var pt := if IsRow(node) then location.y else location.x;
      var axis := if IsRow(node) then size.height else size.width;
      var ratio := if denom == 0.0 then 0.0 else pt / (axis / denom);
      factors[index] := Min(Max(0.0, ratio), denom);
      DragKeepsSettled(node, old(factors[..]), index, pt, axis);
      if NoNegativeWeight(node) {
        FactorsStayWithin(node, old(factors[..]), index, pt, axis);
      }
    }
  }

  /** A client of the view: a row of two equal slots on a 200 by 100
      canvas, whose divider is dragged three quarters of the way down. */
  method HalvesThenDrag()
  {
    var t := Row(ViewContainer([Slot(SystemPink, 1.0, 1), Slot(SystemTeal, 1.0, 2)], Uuid(0)), 1.0);
    var ws := Weights(Content(t));
    assert ws == [1.0, 1.0] && ws[..1] == [1.0] && ws[..2] == ws;
    SumSingleton(1.0);
    assert Sum(ws) == Sum(ws[..1]) + ws[1];
    assert Denom(t) == 2.0 by { DenomOfIsSum(Content(t)); }
    var v := new CollageView(Size(200.0, 100.0), t, false);
    assert v.factors[..] == [1.0, 2.0];
    var before := v.ChildSizes().value;
    assert before[0] == Size(200.0, 50.0) && before[1] == Size(200.0, 50.0);
    assert before == [Size(200.0, 50.0), Size(200.0, 50.0)];
    v.DragChanged(0, Point(10.0, 75.0));
    assert v.factors[..] == [1.5, 2.0];
    var after := v.ChildSizes().value;
    assert after[0] == Size(200.0, 75.0) && after[1] == Size(200.0, 25.0);
    assert after == [Size(200.0, 75.0), Size(200.0, 25.0)];
    assert v.Divider(0) == Ok(75.0);
  }

  // ---------------------------------------------------------------------
  // The recursive layout

  /** A leaf slot with the size the layout gives it. */
  datatype Frame = Frame(slot: Container, size: Size)

  /** The leaf frames a view of `t` at `size` draws: each child is a fresh
      view whose factors come from its own weights. */
  function Frames(t: CollageType, size: Size): Result<seq<Frame>>
    decreases t, 1
  {
    match t
    case Data(c, _) => Ok([Frame(c, size)])
    case Row(vc, _) =>
      FactorsArePrefixDenoms(t);
      (match Partition(t, size, FactorsArray(t))
       case Err(e) => Err(e)
       case Ok(ss) => FramesOf(vc.items, ss))
    case Column(vc, _) =>
      FactorsArePrefixDenoms(t);
      (match Partition(t, size, FactorsArray(t))
       case Err(e) => Err(e)
       case Ok(ss) => FramesOf(vc.items, ss))
  }

  function FramesOf(ts: seq<CollageType>, ss: seq<Size>): Result<seq<Frame>>
    requires |ss| == |ts|
    decreases ts, 0
  {
    if ts == [] then Ok([])
    else
      match Frames(ts[0], ss[0])
      case Err(e) => Err(e)
      case Ok(a) =>
        match FramesOf(ts[1..], ss[1..])
        case Err(e) => Err(e)
        case Ok(b) => Ok(a + b)
  }

  function Slots(fs: seq<Frame>): (r: seq<Container>)
    ensures |r| == |fs| && forall i :: 0 <= i < |fs| ==> r[i] == fs[i].slot
  {
    seq(|fs|, i requires 0 <= i < |fs| => fs[i].slot)
  }

  function Area(s: Size): real { s.width * s.height }

  function SizeAreas(ss: seq<Size>): (r: seq<real>)
    ensures |r| == |ss| && forall i :: 0 <= i < |ss| ==> r[i] == Area(ss[i])
  {
    seq(|ss|, i requires 0 <= i < |ss| => Area(ss[i]))
  }

  function FrameAreas(fs: seq<Frame>): (r: seq<real>)
    ensures |r| == |fs| && forall i :: 0 <= i < |fs| ==> r[i] == Area(fs[i].size)
  {
    seq(|fs|, i requires 0 <= i < |fs| => Area(fs[i].size))
  }

  /** The layout draws exactly the tree's leaves, depth first and left to
      right: what the lookup searches is what the layout shows. */
  lemma {:induction false} FramesAreLeaves(t: CollageType, size: Size)
    requires Frames(t, size).Ok?
    ensures Slots(Frames(t, size).value) == Leaves(t)
    decreases t, 1
  {
    match t
    case Data(c, _) =>
    case Row(vc, _) =>
      FactorsArePrefixDenoms(t);
      FramesOfAreLeaves(vc.items, Partition(t, size, FactorsArray(t)).value);
    case Column(vc, _) =>
      FactorsArePrefixDenoms(t);
      FramesOfAreLeaves(vc.items, Partition(t, size, FactorsArray(t)).value);
  }

  lemma {:induction false} FramesOfAreLeaves(ts: seq<CollageType>, ss: seq<Size>)
    requires |ss| == |ts| && FramesOf(ts, ss).Ok?
    ensures Slots(FramesOf(ts, ss).value) == LeavesOf(ts)
    decreases ts, 0
  {
    if ts != [] {
      var a := Frames(ts[0], ss[0]).value;
      var b := FramesOf(ts[1..], ss[1..]).value;
      assert FramesOf(ts, ss).value == a + b;
      FramesAreLeaves(ts[0], ss[0]);
      FramesOfAreLeaves(ts[1..], ss[1..]);
      SlotsAppend(a, b);
    }
  }

  lemma SlotsAppend(a: seq<Frame>, b: seq<Frame>)
    ensures Slots(a + b) == Slots(a) + Slots(b)
  {
  }

  /** A row's or column's children, laid out from settled factors, cover
      its area exactly. */
  lemma PartitionArea(t: CollageType, size: Size, f: seq<real>)
    requires Settled(t, f) && !IsData(t) && Denom(t) != 0.0
    ensures Partition(t, size, f).Ok?
    ensures Sum(SizeAreas(Partition(t, size, f).value)) == Area(size)
  {
    PartitionFills(t, size, f);
    FilledAreas(Partition(t, size, f).value, size, t.Row?);
  }

  /** Sizes that fill a view along one axis and keep its other side cover
      its area. */
  lemma FilledAreas(ss: seq<Size>, size: Size, row: bool)
    requires row ==> (forall i :: 0 <= i < |ss| ==> ss[i].width == size.width) && Sum(Heights(ss)) == size.height
    requires !row ==> (forall i :: 0 <= i < |ss| ==> ss[i].height == size.height) && Sum(Widths(ss)) == size.width
    ensures Sum(SizeAreas(ss)) == Area(size)
  {
    if row {
      AreasOfEqualWidths(ss, size.width, size.height);
    } else {
      AreasOfEqualHeights(ss, size.height, size.width);
    }
  }

  lemma AreasOfEqualWidths(ss: seq<Size>, w: real, h: real)
    requires forall i :: 0 <= i < |ss| ==> ss[i].width == w
    requires Sum(Heights(ss)) == h
    ensures Sum(SizeAreas(ss)) == w * h
  {
    SumScaled(Heights(ss), SizeAreas(ss), w);
  }

  lemma AreasOfEqualHeights(ss: seq<Size>, h: real, w: real)
    requires forall i :: 0 <= i < |ss| ==> ss[i].height == h
    requires Sum(Widths(ss)) == w
    ensures Sum(SizeAreas(ss)) == w * h
  {
    forall i | 0 <= i < |ss| ensures SizeAreas(ss)[i] == h * Widths(ss)[i] { }
    SumScaled(Widths(ss), SizeAreas(ss), h);
    assert h * w == w * h;
  }

  /** The leaf frames of a tree cover the view's area exactly. */
  lemma {:induction false} FramesCoverArea(t: CollageType, size: Size)
    requires Frames(t, size).Ok?
    ensures Sum(FrameAreas(Frames(t, size).value)) == Area(size)
    decreases t, 1
  {
    match t
    case Data(c, _) =>
      SumSingleton(Area(size));
      assert FrameAreas([Frame(c, size)]) == [Area(size)];
    case Row(vc, _) =>
      FreshFactorsSettled(t);
      PartitionArea(t, size, FactorsArray(t));
      FramesOfCoverArea(vc.items, Partition(t, size, FactorsArray(t)).value);
    case Column(vc, _) =>
      FreshFactorsSettled(t);
      PartitionArea(t, size, FactorsArray(t));
      FramesOfCoverArea(vc.items, Partition(t, size, FactorsArray(t)).value);
  }

  lemma {:induction false} FramesOfCoverArea(ts: seq<CollageType>, ss: seq<Size>)
    requires |ss| == |ts| && FramesOf(ts, ss).Ok?
    ensures Sum(FrameAreas(FramesOf(ts, ss).value)) == Sum(SizeAreas(ss))
    decreases ts, 0
  {
    if ts != [] {
      var a := Frames(ts[0], ss[0]).value;
      var b := FramesOf(ts[1..], ss[1..]).value;
      assert FramesOf(ts, ss).value == a + b;
      FramesCoverArea(ts[0], ss[0]);
      FramesOfCoverArea(ts[1..], ss[1..]);
      FrameAreasAppend(a, b);
      SizeAreasCons(ss);
    }
  }

  lemma FrameAreasAppend(a: seq<Frame>, b: seq<Frame>)
    ensures Sum(FrameAreas(a + b)) == Sum(FrameAreas(a)) + Sum(FrameAreas(b))
  {
    assert FrameAreas(a + b) == FrameAreas(a) + FrameAreas(b);
    SumAppend(FrameAreas(a), FrameAreas(b));
  }

  lemma SizeAreasCons(ss: seq<Size>)
    requires ss != []
    ensures Sum(SizeAreas(ss)) == Area(ss[0]) + Sum(SizeAreas(ss[1..]))
  {
    assert SizeAreas(ss) == [Area(ss[0])] + SizeAreas(ss[1..]);
    SumAppend([Area(ss[0])], SizeAreas(ss[1..]));
    SumSingleton(Area(ss[0]));
  }

  /** A well-formed tree always lays out. */
  lemma {:induction false} WellFormedLaysOut(t: CollageType, size: Size)
    requires WellFormed(t)
    ensures Frames(t, size).Ok?
    decreases t, 1
  {
    match t
    case Data(c, _) =>
    case Row(vc, _) =>
      DenomPositive(t);
      FactorsArePrefixDenoms(t);
      AllWellFormedLaysOut(vc.items, Partition(t, size, FactorsArray(t)).value);
    case Column(vc, _) =>
      DenomPositive(t);
      FactorsArePrefixDenoms(t);
      AllWellFormedLaysOut(vc.items, Partition(t, size, FactorsArray(t)).value);
  }

  lemma {:induction false} AllWellFormedLaysOut(ts: seq<CollageType>, ss: seq<Size>)
    requires |ss| == |ts| && AllWellFormed(ts)
    ensures FramesOf(ts, ss).Ok?
    decreases ts, 0
  {
    if ts != [] {
      WellFormedLaysOut(ts[0], ss[0]);
      AllWellFormedLaysOut(ts[1..], ss[1..]);
    }
  }

  /** Every preset lays out at any size, its leaves covering the canvas. */
  lemma PresetsLayOut(i: nat, size: Size)
    requires i < |Collages|
    ensures Frames(Collages[i], size).Ok?
    ensures Sum(FrameAreas(Frames(Collages[i], size).value)) == Area(size)
  {
    PresetsAreWellFormed();
    WellFormedLaysOut(Collages[i], size);
    FramesCoverArea(Collages[i], size);
  }
}
