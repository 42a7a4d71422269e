/** The collage layout tree: a row or column splits its rectangle among
    weighted children, a data leaf shows one slot (a colour placeholder or
    an image). Everything here is a pure value computation. */
module Collage {
  import opened Platform
  import opened RealSeq

  // ---------------------------------------------------------------------
  // Aspect ratios offered for the canvas

  /** The ratios offered for the collage canvas. */
  datatype CollageRatio =
    | OneOne | OneTwo | OneThree | TwoThree | ThreeFive
    | FiveSeven | TwoOne | ThreeOne | FiveThree | SevenFive

  /** The numeric ratio of each case. */
  function RatioValue(r: CollageRatio): (v: real)
    ensures 0.0 < v
  {
    match r
    case OneOne => 1.0
    case OneTwo => 1.0 / 2.0
    case OneThree => 1.0 / 3.0
    case TwoThree => 2.0 / 3.0
    case ThreeFive => 3.0 / 5.0
    case FiveSeven => 5.0 / 7.0
    case TwoOne => 2.0 / 1.0
    case ThreeOne => 3.0 / 1.0
    case FiveThree => 5.0 / 3.0
    case SevenFive => 7.0 / 5.0
  }

  /** The label shown for each case, "a X b". */
  function RatioLabel(r: CollageRatio): (s: string)
    ensures |s| == 5 && IsDigit(s[0]) && s[1] == ' ' && s[2] == 'X' && s[3] == ' ' && IsDigit(s[4])
  {
    match r
    case OneOne => "1 X 1"
    case OneTwo => "1 X 2"
    case OneThree => "1 X 3"
    case TwoThree => "2 X 3"
    case ThreeFive => "3 X 5"
    case FiveSeven => "5 X 7"
    case TwoOne => "2 X 1"
    case ThreeOne => "3 X 1"
    case FiveThree => "5 X 3"
    case SevenFive => "7 X 5"
  }

  predicate IsDigit(c: char) { '0' <= c <= '9' }

  function DigitValue(c: char): nat
    requires IsDigit(c)
  {
    (c as int - '0' as int) as nat
  }

  /** Reads a label of the form "a X b" with one-digit `a` and `b`. */
  function ParseLabel(s: string): (r: Option<(nat, nat)>)
    ensures r.Some? ==> |s| == 5 && s[1] == ' ' && s[2] == 'X' && s[3] == ' '
  {
    if |s| == 5 && IsDigit(s[0]) && s[1] == ' ' && s[2] == 'X' && s[3] == ' ' && IsDigit(s[4])
    then Some((DigitValue(s[0]), DigitValue(s[4])))
    else None
  }

  /** Every label reads "a X b" for positive `a`, `b` with value `a / b`. */
  lemma RatioLabelMatchesValue(r: CollageRatio)
    ensures ParseLabel(RatioLabel(r)).Some?
    ensures var (a, b) := ParseLabel(RatioLabel(r)).value;
      0 < a && 0 < b && RatioValue(r) == a as real / b as real
  {
  }

  // ---------------------------------------------------------------------
  // Slots and the layout tree

  /** What a leaf shows: a colour placeholder, or an assigned image. */
  datatype ContainerType = Empty(fill: UIColor) | Image(picture: UIImage)

  /** `ContainerType.color`: the placeholder colour, or nil for an image. */
  function ColorOf(k: ContainerType): (r: Option<UIColor>)
    ensures r.Some? <==> k.Empty?
    ensures k.Empty? ==> r.value == k.fill
  {
    match k
    case Empty(c) => Some(c)
    case Image(_) => None
  }

  /** A leaf's payload and its identifier. */
  datatype Container = Container(kind: ContainerType, id: Uuid)

  /** The ordered children of a row or column and its identifier. */
  datatype ViewContainer = ViewContainer(items: seq<CollageType>, id: Uuid)

  /** A node of the layout tree with its weight (`length`). */
  datatype CollageType =
    | Row(children: ViewContainer, weight: real)
    | Column(children: ViewContainer, weight: real)
    | Data(container: Container, weight: real)

  /** `length`: the weight every variant carries. */
  function Length(t: CollageType): (r: real)
    ensures r == t.weight
  {
    match t
    case Row(_, w) => w
    case Column(_, w) => w
    case Data(_, w) => w
  }

  /** `content`: the children of a row or column, nothing for a leaf. */
  function Content(t: CollageType): (r: seq<CollageType>)
    ensures t.Data? ==> r == []
    ensures !t.Data? ==> r == t.children.items
  {
    match t
    case Row(vc, _) => vc.items
    case Column(vc, _) => vc.items
    case Data(_, _) => []
  }

  function IsRow(t: CollageType): (r: bool)
    ensures r <==> t.Row?
  {
    match t
    case Row(_, _) => true
    case _ => false
  }

  function IsData(t: CollageType): (r: bool)
    ensures r <==> t.Data?
  {
    match t
    case Data(_, _) => true
    case _ => false
  }

  /** The weights of a list of nodes, in order (`content.map { $0.length }`). */
  function Weights(cs: seq<CollageType>): (ws: seq<real>)
    ensures |ws| == |cs|
    ensures forall i :: 0 <= i < |cs| ==> ws[i] == cs[i].weight
  {
    seq(|cs|, i requires 0 <= i < |cs| => Length(cs[i]))
  }

  /** `factorsArray`: entry `offset` adds the weights of children 0 ... offset. */
  function FactorsArray(t: CollageType): (r: seq<real>)
    ensures |r| == |Content(t)|
    ensures IsData(t) ==> r == []
  {
    var mapped := Weights(Content(t));
    seq(|mapped|, offset requires 0 <= offset < |mapped| => Sum(mapped[..offset + 1]))
  }

  // ---------------------------------------------------------------------
  // Facts about the factors

  /** One factor per child, and entry `i` is the summed weight of children `0..i`. */
  lemma FactorsArrayShape(t: CollageType)
    ensures |FactorsArray(t)| == |Content(t)|
    ensures forall i :: 0 <= i < |Content(t)| ==>
      FactorsArray(t)[i] == Sum(Weights(Content(t)[..i + 1]))
  {
    var cs := Content(t);
    forall i | 0 <= i < |cs|
      ensures FactorsArray(t)[i] == Sum(Weights(cs[..i + 1]))
    {
      assert Weights(cs)[..i + 1] == Weights(cs[..i + 1]);
    }
  }

  /** A leaf has no children, so no factors. */
  lemma DataHasNoFactors(t: CollageType)
    requires IsData(t)
    ensures Content(t) == [] && FactorsArray(t) == []
  {
  }

  /** With no negative weight the factors never decrease and none exceeds
      the last one, which is the sum of all child weights. */
  lemma {:induction false} FactorsMonotone(t: CollageType)
    requires forall c :: c in Content(t) ==> 0.0 <= c.weight
    ensures var f := FactorsArray(t);
      (forall i, j :: 0 <= i <= j < |f| ==> 0.0 <= f[i] <= f[j])
      && (|f| > 0 ==> f[|f| - 1] == Sum(Weights(Content(t))))
  {
    var ws := Weights(Content(t));
    var f := FactorsArray(t);
    forall k | 0 <= k < |ws| ensures 0.0 <= ws[k] {
      assert Content(t)[k] in Content(t);
    }
    forall i, j | 0 <= i <= j < |f| ensures 0.0 <= f[i] <= f[j] {
      PrefixSumsBounded(ws, i + 1, j + 1);
    }
    if |f| > 0 {
      assert ws[..|ws|] == ws;
    }
  }

  // ---------------------------------------------------------------------
  // Looking a slot up by id

  /** `getColorForContainer(id)`: the children's answers, `compactMap`ped,
      and the first one. */
  function GetColorForContainer(t: CollageType, id: Uuid): Option<UIColor>
    decreases t, 1
  {
    match t
    case Row(vc, _) => First(CompactColors(vc.items, id))
    case Column(vc, _) => First(CompactColors(vc.items, id))
    case Data(c, _) => if c.id == id then ColorOf(c.kind) else None
  }

  /** `children.compactMap { $0.getColorForContainer(id) }`. */
  function CompactColors(ts: seq<CollageType>, id: Uuid): seq<UIColor>
    decreases ts, 0
  {
    if ts == [] then []
    else
      (match GetColorForContainer(ts[0], id)
       case Some(c) => [c]
       case None => [])
      + CompactColors(ts[1..], id)
  }

  /** `Array.first`. */
  function First<T>(s: seq<T>): (r: Option<T>)
    ensures r.Some? <==> s != []
    ensures r.Some? ==> r.value == s[0]
  {
    if s == [] then None else Some(s[0])
  }

  /** The leaves of a tree, depth first and left to right. */
  function Leaves(t: CollageType): seq<Container>
    decreases t, 1
  {
    match t
    case Row(vc, _) => LeavesOf(vc.items)
    case Column(vc, _) => LeavesOf(vc.items)
    case Data(c, _) => [c]
  }

  function LeavesOf(ts: seq<CollageType>): seq<Container>
    decreases ts, 0
  {
    if ts == [] then [] else Leaves(ts[0]) + LeavesOf(ts[1..])
  }

  /** A leaf list's first placeholder with the given id: the reference for
      the lookup. An image leaf with that id is passed over. */
  function FirstColorWithId(ls: seq<Container>, id: Uuid): (r: Option<UIColor>)
    ensures r.None? <==> forall k :: 0 <= k < |ls| ==> !(ls[k].id == id && ls[k].kind.Empty?)
  {
    if ls == [] then None
    else if ls[0].id == id && ls[0].kind.Empty? then Some(ls[0].kind.fill)
    else
      var rest := FirstColorWithId(ls[1..], id);
      assert forall k :: 1 <= k < |ls| ==> ls[k] == ls[1..][k - 1];
      rest
  }

  /** A colour found is the fill of the first placeholder leaf with the id. */
  lemma {:induction false} FirstColorFound(ls: seq<Container>, id: Uuid)
    ensures var r := FirstColorWithId(ls, id);
      r.Some? ==> (exists k :: 0 <= k < |ls| && ls[k].id == id && ls[k].kind.Empty?
                     && r.value == ls[k].kind.fill
                     && forall j :: 0 <= j < k ==> !(ls[j].id == id && ls[j].kind.Empty?))
  {
    if ls != [] && !(ls[0].id == id && ls[0].kind.Empty?) {
      FirstColorFound(ls[1..], id);
      var r := FirstColorWithId(ls, id);
      if r.Some? {
        var k :| 0 <= k < |ls[1..]| && ls[1..][k].id == id && ls[1..][k].kind.Empty?
          && r.value == ls[1..][k].kind.fill
          && forall j :: 0 <= j < k ==> !(ls[1..][j].id == id && ls[1..][j].kind.Empty?);
        assert ls[k + 1] == ls[1..][k];
        forall j | 0 <= j < k + 1 ensures !(ls[j].id == id && ls[j].kind.Empty?) {
          if j > 0 { assert ls[j] == ls[1..][j - 1]; }
        }
      }
    }
  }

  lemma {:induction false} FirstColorAppend(a: seq<Container>, b: seq<Container>, id: Uuid)
    ensures FirstColorWithId(a + b, id)
         == if FirstColorWithId(a, id).Some? then FirstColorWithId(a, id) else FirstColorWithId(b, id)
  {
    if a != [] {
      assert (a + b)[1..] == a[1..] + b;
      FirstColorAppend(a[1..], b, id);
    } else {
      assert a + b == b;
    }
  }

  /** The recursive `compactMap(...).first` lookup agrees with a search of
      the depth-first leaf list for the first placeholder with that id. */
  lemma {:induction false} LookupIsFirstPlaceholder(t: CollageType, id: Uuid)
    ensures GetColorForContainer(t, id) == FirstColorWithId(Leaves(t), id)
    decreases t, 1
  {
    match t
    case Row(vc, _) => LookupListIsFirstPlaceholder(vc.items, id);
    case Column(vc, _) => LookupListIsFirstPlaceholder(vc.items, id);
    case Data(c, _) =>
  }

  lemma {:induction false} LookupListIsFirstPlaceholder(ts: seq<CollageType>, id: Uuid)
    ensures First(CompactColors(ts, id)) == FirstColorWithId(LeavesOf(ts), id)
    decreases ts, 0
  {
    if ts != [] {
      LookupIsFirstPlaceholder(ts[0], id);
      LookupListIsFirstPlaceholder(ts[1..], id);
      FirstColorAppend(Leaves(ts[0]), LeavesOf(ts[1..]), id);
    }
  }

  /** An id that no leaf carries is not found. */
  lemma LookupMissingId(t: CollageType, id: Uuid)
    requires forall c :: c in Leaves(t) ==> c.id != id
    ensures GetColorForContainer(t, id) == None
  {
    LookupIsFirstPlaceholder(t, id);
  }

  /** Leaf ids are pairwise distinct. */
  predicate DistinctIds(ls: seq<Container>)
  {
    forall i, j :: 0 <= i < j < |ls| ==> ls[i].id != ls[j].id
  }

  /** Depth first, every leaf id exceeds the one before it, the first
      exceeding `lo`; the result is the last id seen (`lo` with no leaf). */
  function LastIdAfter(t: CollageType, lo: int): Option<int>
    decreases t, 1
  {
    match t
    case Row(vc, _) => LastIdAfterAll(vc.items, lo)
    case Column(vc, _) => LastIdAfterAll(vc.items, lo)
    case Data(c, _) => if lo < c.id.n then Some(c.id.n) else None
  }

  function LastIdAfterAll(ts: seq<CollageType>, lo: int): Option<int>
    decreases ts, 0
  {
    if ts == [] then Some(lo)
    else
      match LastIdAfter(ts[0], lo)
      case None => None
      case Some(m) => LastIdAfterAll(ts[1..], m)
  }

  /** Every leaf id lies in `(lo, hi]`. */
  predicate IdsIn(ls: seq<Container>, lo: int, hi: int)
  {
    forall k :: 0 <= k < |ls| ==> lo < ls[k].id.n <= hi
  }

  lemma IdsInAppend(a: seq<Container>, b: seq<Container>, lo: int, mid: int, hi: int)
    requires lo <= mid <= hi
    requires IdsIn(a, lo, mid) && IdsIn(b, mid, hi) && DistinctIds(a) && DistinctIds(b)
    ensures IdsIn(a + b, lo, hi) && DistinctIds(a + b)
  {
    forall k | 0 <= k < |a + b| ensures lo < (a + b)[k].id.n <= hi {
      if k < |a| { assert (a + b)[k] == a[k]; } else { assert (a + b)[k] == b[k - |a|]; }
    }
    forall i, j | 0 <= i < j < |a + b| ensures (a + b)[i].id != (a + b)[j].id {
      if j < |a| {
      } else if i >= |a| {
        assert (a + b)[i] == b[i - |a|] && (a + b)[j] == b[j - |a|];
      } else {
        assert (a + b)[j] == b[j - |a|];
      }
    }
  }

  /** A successful fold means the leaf ids are distinct, and within `(lo, last]`. */
  lemma {:induction false} LastIdAfterSound(t: CollageType, lo: int)
    requires LastIdAfter(t, lo).Some?
    ensures lo <= LastIdAfter(t, lo).value
    ensures IdsIn(Leaves(t), lo, LastIdAfter(t, lo).value) && DistinctIds(Leaves(t))
    decreases t, 1
  {
    match t {
      case Row(vc, _) => LastIdAfterAllSound(vc.items, lo);
      case Column(vc, _) => LastIdAfterAllSound(vc.items, lo);
      case Data(c, _) =>
    }
  }

  lemma {:induction false} LastIdAfterAllSound(ts: seq<CollageType>, lo: int)
    requires LastIdAfterAll(ts, lo).Some?
    ensures lo <= LastIdAfterAll(ts, lo).value
    ensures IdsIn(LeavesOf(ts), lo, LastIdAfterAll(ts, lo).value) && DistinctIds(LeavesOf(ts))
    decreases ts, 0
  {
    if ts != [] {
      var m := LastIdAfter(ts[0], lo).value;
      LastIdAfterSound(ts[0], lo);
      LastIdAfterAllSound(ts[1..], m);
      IdsInAppend(Leaves(ts[0]), LeavesOf(ts[1..]), lo, m, LastIdAfterAll(ts, lo).value);
    }
  }

  /** With distinct leaf ids, looking up a leaf's id yields that leaf's
      colour when it is a placeholder and nil when it holds an image. */
  lemma LookupFindsLeaf(t: CollageType, k: nat)
    requires k < |Leaves(t)| && DistinctIds(Leaves(t))
    ensures GetColorForContainer(t, Leaves(t)[k].id) == ColorOf(Leaves(t)[k].kind)
  {
    var ls := Leaves(t);
    var id := ls[k].id;
    LookupIsFirstPlaceholder(t, id);
    FirstColorAppend(ls[..k], ls[k..], id);
    assert ls == ls[..k] + ls[k..];
    assert FirstColorWithId(ls[..k], id) == None by {
      forall j | 0 <= j < k ensures ls[..k][j].id != id { }
    }
    assert ls[k..][0] == ls[k];
    if ls[k].kind.Image? {
      forall j | 0 <= j < |ls[k..]| ensures !(ls[k..][j].id == id && ls[k..][j].kind.Empty?) {
        if j > 0 { assert ls[k..][j] == ls[k + j]; }
      }
    }
  }

  // ---------------------------------------------------------------------
  // Structural health of a tree

  /** Every row and column of the tree has at least two children. */
  predicate SplitsHaveTwo(t: CollageType)
    decreases t, 1
  {
    match t
    case Row(vc, _) => |vc.items| >= 2 && AllSplitsHaveTwo(vc.items)
    case Column(vc, _) => |vc.items| >= 2 && AllSplitsHaveTwo(vc.items)
    case Data(_, _) => true
  }

  predicate AllSplitsHaveTwo(ts: seq<CollageType>)
    decreases ts, 0
  {
    ts == [] || (SplitsHaveTwo(ts[0]) && AllSplitsHaveTwo(ts[1..]))
  }

  /** Every weight in the tree is 1 or 2. */
  predicate WeightsOneOrTwo(t: CollageType)
    decreases t, 1
  {
    (t.weight == 1.0 || t.weight == 2.0) &&
    match t
    case Row(vc, _) => AllWeightsOneOrTwo(vc.items)
    case Column(vc, _) => AllWeightsOneOrTwo(vc.items)
    case Data(_, _) => true
  }

  predicate AllWeightsOneOrTwo(ts: seq<CollageType>)
    decreases ts, 0
  {
    ts == [] || (WeightsOneOrTwo(ts[0]) && AllWeightsOneOrTwo(ts[1..]))
  }

  /** The tree invariant the layout relies on: every split has a child and
      every weight is positive. */
  predicate WellFormed(t: CollageType)
    decreases t, 1
  {
    0.0 < t.weight &&
    match t
    case Row(vc, _) => |vc.items| >= 1 && AllWellFormed(vc.items)
    case Column(vc, _) => |vc.items| >= 1 && AllWellFormed(vc.items)
    case Data(_, _) => true
  }

  predicate AllWellFormed(ts: seq<CollageType>)
    decreases ts, 0
  {
    ts == [] || (WellFormed(ts[0]) && AllWellFormed(ts[1..]))
  }

  lemma {:induction false} AllWellFormedAt(ts: seq<CollageType>, i: nat)
    requires AllWellFormed(ts) && i < |ts|
    ensures WellFormed(ts[i])
  {
    if i > 0 {
      AllWellFormedAt(ts[1..], i - 1);
    }
  }

  /** Splits of two or more with weights 1 or 2 make a well-formed tree. */
  lemma {:induction false} SplitsAndWeightsWellFormed(t: CollageType)
    requires SplitsHaveTwo(t) && WeightsOneOrTwo(t)
    ensures WellFormed(t)
    decreases t, 1
  {
    match t
    case Row(vc, _) => AllSplitsAndWeightsWellFormed(vc.items);
    case Column(vc, _) => AllSplitsAndWeightsWellFormed(vc.items);
    case Data(_, _) =>
  }

  lemma {:induction false} AllSplitsAndWeightsWellFormed(ts: seq<CollageType>)
    requires AllSplitsHaveTwo(ts) && AllWeightsOneOrTwo(ts)
    ensures AllWellFormed(ts)
    decreases ts, 0
  {
    if ts != [] {
      SplitsAndWeightsWellFormed(ts[0]);
      AllSplitsAndWeightsWellFormed(ts[1..]);
    }
  }

  // ---------------------------------------------------------------------
  // The preset library

  function Slot(c: UIColor, w: real, n: nat): CollageType
  {
    Data(Container(Empty(c), Uuid(n)), w)
  }

  function RowOf(items: seq<CollageType>, n: nat): CollageType
  {
    Row(ViewContainer(items, Uuid(n)), 1.0)
  }

  function ColumnOf(items: seq<CollageType>, n: nat): CollageType
  {
    Column(ViewContainer(items, Uuid(n)), 1.0)
  }

  /** `CollageType.collages`, in order. Each node gets its own id. */
  const Collages: seq<CollageType> := [
    Preset0, Preset1, Preset2, Preset3, Preset4, Preset5, Preset6, Preset7, Preset8, Preset9, Preset10, Preset11
  ]

  const Preset0: CollageType :=
    ColumnOf([Slot(SystemRed, 1.0, 1), Slot(SystemIndigo, 1.0, 2)], 0)

  const Preset1: CollageType :=
    RowOf([Slot(SystemPink, 1.0, 101), Slot(SystemTeal, 1.0, 102)], 100)

  const Preset2: CollageType :=
    RowOf([Slot(SystemRed, 1.0, 201), Slot(SystemBlue, 1.0, 202), Slot(SystemGray, 1.0, 203)], 200)

  const Preset3: CollageType :=
    RowOf([ColumnOf([Slot(SystemOrange, 1.0, 302), Slot(SystemGray2, 1.0, 303)], 301),
           Slot(SystemBrown, 1.0, 304)], 300)

  const Preset4: CollageType :=
    RowOf([Slot(SystemYellow, 1.0, 401),
           ColumnOf([Slot(SystemRed, 1.0, 403), Slot(SystemBrown, 1.0, 404)], 402)], 400)

  const Preset5: CollageType :=
    ColumnOf([RowOf([Slot(SystemOrange, 1.0, 502), Slot(SystemGray2, 1.0, 503)], 501),
              Slot(SystemBrown, 1.0, 504)], 500)

  const Preset6: CollageType :=
    ColumnOf([Slot(SystemPink, 1.0, 601),
              RowOf([Slot(SystemRed, 1.0, 603), Slot(SystemIndigo, 1.0, 604)], 602)], 600)

  const Preset7: CollageType :=
    ColumnOf([RowOf([Slot(SystemPink, 2.0, 702), Slot(SystemPurple, 1.0, 703)], 701),
              RowOf([Slot(SystemRed, 1.0, 705), Slot(SystemIndigo, 2.0, 706)], 704)], 700)

  const Preset8: CollageType :=
    ColumnOf([Slot(SystemIndigo, 1.0, 801), Slot(SystemPink, 1.0, 802), Slot(SystemTeal, 1.0, 803)], 800)

  const Preset9: CollageType :=
    RowOf([ColumnOf([Slot(SystemPink, 1.0, 902), Slot(SystemPurple, 2.0, 903)], 901),
           ColumnOf([Slot(SystemRed, 2.0, 905), Slot(SystemIndigo, 1.0, 906)], 904)], 900)

  const Preset10: CollageType :=
    RowOf([ColumnOf([RowOf([ColumnOf([Slot(SystemRed, 1.0, 1004), Slot(SystemCyan, 1.0, 1005)], 1003),
                            Slot(Green, 1.0, 1006)], 1002),
                     Slot(Magenta, 1.0, 1007),
                     RowOf([ColumnOf([Slot(SystemOrange, 1.0, 1010), Slot(SystemTeal, 1.0, 1011)], 1009),
                            Slot(SystemBlue, 1.0, 1012)], 1008)], 1001),
           Slot(SystemMint, 1.0, 1013)], 1000)

  const Preset11: CollageType :=
    RowOf([ColumnOf([Slot(SystemRed, 1.0, 1102),
                     RowOf([Slot(SystemBlue, 1.0, 1104), Slot(SystemIndigo, 1.0, 1105)], 1103),
                     Slot(SystemMint, 1.0, 1106)], 1101),
           ColumnOf([Slot(SystemPink, 1.0, 1108), Slot(SystemGray, 1.0, 1109)], 1107),
           ColumnOf([Slot(SystemYellow, 1.0, 1111),
                     RowOf([Slot(SystemGreen, 1.0, 1113), Slot(Brown, 1.0, 1114)], 1112),
                     Slot(SystemTeal, 1.0, 1115)], 1110)], 1100)

  /** Twelve presets; in each, every split has at least two children and
      every weight is 1 or 2, so each is a well-formed tree. */
  lemma PresetsAreWellFormed()
    ensures |Collages| == 12
    ensures forall i :: 0 <= i < |Collages| ==>
      SplitsHaveTwo(Collages[i]) && WeightsOneOrTwo(Collages[i]) && WellFormed(Collages[i])
  {
    forall i | 0 <= i < |Collages|
      ensures SplitsHaveTwo(Collages[i]) && WeightsOneOrTwo(Collages[i])
    {
      PresetShape(i);
    }
    forall i | 0 <= i < |Collages| ensures WellFormed(Collages[i]) {
      SplitsAndWeightsWellFormed(Collages[i]);
    }
  }

  lemma PresetShape(i: nat)
    requires i < |Collages|
    ensures SplitsHaveTwo(Collages[i]) && WeightsOneOrTwo(Collages[i])
  {
    if i == 0 { ShapeOf0(); }
    else if i == 1 { ShapeOf1(); }
    else if i == 2 { ShapeOf2(); }
    else if i == 3 { ShapeOf3(); }
    else if i == 4 { ShapeOf4(); }
    else if i == 5 { ShapeOf5(); }
    else if i == 6 { ShapeOf6(); }
    else if i == 7 { ShapeOf7(); }
    else if i == 8 { ShapeOf8(); }
    else if i == 9 { ShapeOf9(); }
    else if i == 10 { ShapeOf10(); }
    else { ShapeOf11(); }
  }

  /** In every preset the leaf ids are distinct, so a lookup by a leaf's
      id finds exactly that leaf. */
  lemma PresetIdsAreDistinct()
    ensures forall i :: 0 <= i < |Collages| ==> DistinctIds(Leaves(Collages[i]))
  {
    forall i | 0 <= i < |Collages| ensures DistinctIds(Leaves(Collages[i])) {
      PresetIds(i);
      LastIdAfterSound(Collages[i], -1);
    }
  }

  lemma PresetLookupFindsLeaf(i: nat, k: nat)
    requires i < |Collages| && k < |Leaves(Collages[i])|
    ensures GetColorForContainer(Collages[i], Leaves(Collages[i])[k].id) == ColorOf(Leaves(Collages[i])[k].kind)
  {
    PresetIdsAreDistinct();
    LookupFindsLeaf(Collages[i], k);
  }

  lemma PresetIds(i: nat)
    requires i < |Collages|
    ensures LastIdAfter(Collages[i], -1).Some?
  {
    if i == 0 { IdsOf0(); }
    else if i == 1 { IdsOf1(); }
    else if i == 2 { IdsOf2(); }
    else if i == 3 { IdsOf3(); }
    else if i == 4 { IdsOf4(); }
    else if i == 5 { IdsOf5(); }
    else if i == 6 { IdsOf6(); }
    else if i == 7 { IdsOf7(); }
    else if i == 8 { IdsOf8(); }
    else if i == 9 { IdsOf9(); }
    else if i == 10 { IdsOf10(); }
    else { IdsOf11(); }
  }

  lemma IdsOf0()
    ensures LastIdAfter(Collages[0], -1).Some?
  {
    assert Collages[0] == Preset0;
  }

  lemma IdsOf1()
    ensures LastIdAfter(Collages[1], -1).Some?
  {
    assert Collages[1] == Preset1;
  }

  lemma IdsOf2()
    ensures LastIdAfter(Collages[2], -1).Some?
  {
    assert Collages[2] == Preset2;
  }

  lemma IdsOf3()
    ensures LastIdAfter(Collages[3], -1).Some?
  {
    assert Collages[3] == Preset3;
  }

  lemma IdsOf4()
    ensures LastIdAfter(Collages[4], -1).Some?
  {
    assert Collages[4] == Preset4;
  }

  lemma IdsOf5()
    ensures LastIdAfter(Collages[5], -1).Some?
  {
    assert Collages[5] == Preset5;
  }

  lemma IdsOf6()
    ensures LastIdAfter(Collages[6], -1).Some?
  {
    assert Collages[6] == Preset6;
  }

  lemma IdsOf7()
    ensures LastIdAfter(Collages[7], -1).Some?
  {
    assert Collages[7] == Preset7;
  }

  lemma IdsOf8()
    ensures LastIdAfter(Collages[8], -1).Some?
  {
    assert Collages[8] == Preset8;
  }

  lemma IdsOf9()
    ensures LastIdAfter(Collages[9], -1).Some?
  {
    assert Collages[9] == Preset9;
  }

  lemma IdsOf10()
    ensures LastIdAfter(Collages[10], -1).Some?
  {
    assert Collages[10] == Preset10;
    var cs := Content(Preset10);
    var inner := Content(cs[0]);
    assert LastIdAfter(inner[0], -1) == Some(1006);
    assert LastIdAfter(inner[1], 1006) == Some(1007);
    assert LastIdAfter(inner[2], 1007) == Some(1012);
    assert LastIdAfterAll(inner[2..], 1007) == Some(1012);
    assert LastIdAfterAll(inner[1..], 1006) == Some(1012);
    assert LastIdAfter(cs[0], -1) == Some(1012);
    assert LastIdAfterAll(cs[1..], 1012) == Some(1013);
  }

  lemma IdsOf11()
    ensures LastIdAfter(Collages[11], -1).Some?
  {
    assert Collages[11] == Preset11;
    var cs := Content(Preset11);
    IdsOf11Left();
    IdsOf11Middle();
    IdsOf11Right();
    assert LastIdAfterAll(cs[2..], 1109) == Some(1115);
    assert LastIdAfterAll(cs[1..], 1106) == Some(1115);
  }

  lemma IdsOf11Left()
    ensures |Content(Preset11)| == 3
    ensures LastIdAfter(Content(Preset11)[0], -1) == Some(1106)
  {
  }

  lemma IdsOf11Middle()
    ensures |Content(Preset11)| == 3
    ensures LastIdAfter(Content(Preset11)[1], 1106) == Some(1109)
  {
  }

  lemma IdsOf11Right()
    ensures |Content(Preset11)| == 3
    ensures LastIdAfter(Content(Preset11)[2], 1109) == Some(1115)
  {
  }


  lemma ShapeOf0()
    ensures SplitsHaveTwo(Collages[0]) && WeightsOneOrTwo(Collages[0])
  {
    assert Collages[0] == Preset0;
  }

  lemma ShapeOf1()
    ensures SplitsHaveTwo(Collages[1]) && WeightsOneOrTwo(Collages[1])
  {
    assert Collages[1] == Preset1;
  }

  lemma ShapeOf2()
    ensures SplitsHaveTwo(Collages[2]) && WeightsOneOrTwo(Collages[2])
  {
    assert Collages[2] == Preset2;
  }

  lemma ShapeOf3()
    ensures SplitsHaveTwo(Collages[3]) && WeightsOneOrTwo(Collages[3])
  {
    assert Collages[3] == Preset3;
  }

  lemma ShapeOf4()
    ensures SplitsHaveTwo(Collages[4]) && WeightsOneOrTwo(Collages[4])
  {
    assert Collages[4] == Preset4;
  }

  lemma ShapeOf5()
    ensures SplitsHaveTwo(Collages[5]) && WeightsOneOrTwo(Collages[5])
  {
    assert Collages[5] == Preset5;
  }

  lemma ShapeOf6()
    ensures SplitsHaveTwo(Collages[6]) && WeightsOneOrTwo(Collages[6])
  {
    assert Collages[6] == Preset6;
  }

  lemma ShapeOf7()
    ensures SplitsHaveTwo(Collages[7]) && WeightsOneOrTwo(Collages[7])
  {
    assert Collages[7] == Preset7;
  }

  lemma ShapeOf8()
    ensures SplitsHaveTwo(Collages[8]) && WeightsOneOrTwo(Collages[8])
  {
    assert Collages[8] == Preset8;
  }

  lemma ShapeOf9()
    ensures SplitsHaveTwo(Collages[9]) && WeightsOneOrTwo(Collages[9])
  {
    assert Collages[9] == Preset9;
  }

  lemma ShapeOf10()
    ensures SplitsHaveTwo(Collages[10]) && WeightsOneOrTwo(Collages[10])
  {
    assert Collages[10] == Preset10;
    SplitsOf10();
    WeightsOf10();
  }

  lemma SplitsOf10()
    ensures SplitsHaveTwo(Preset10)
  {
  }

  lemma WeightsOf10()
    ensures WeightsOneOrTwo(Preset10)
  {
  }

  lemma ShapeOf11()
    ensures SplitsHaveTwo(Collages[11]) && WeightsOneOrTwo(Collages[11])
  {
    assert Collages[11] == Preset11;
    SplitsOf11();
    WeightsOf11();
  }

  lemma SplitsOf11()
    ensures SplitsHaveTwo(Preset11)
  {
  }

  lemma WeightsOf11()
    ensures WeightsOneOrTwo(Preset11)
  {
  }
}
