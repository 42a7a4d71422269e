# Collage layout engine and editor state, modelled in Dafny

This project models the core of a photo-editing app's collage feature and a
slice of its photo editor's state:

- **Layout tree** (`Collage`, `collage_type.dfy`). A collage is a tree of
  `Row`s, `Column`s and `Data` leaves. Each node carries a weight (`length`). A leaf
  holds a `Container`: a colour placeholder or an image, under an id. The
  module gives the tree's queries (`length`, `content`, `isRow`, `isData`,
  `factorsArray`, lookup of a slot's colour by id), the twelve shipped
  presets, and the canvas aspect-ratio table.
- **Partition and drag arithmetic** (`CollageLayout`, `collage_view.dfy`).
  A collage view divides its size among a node's children. A row splits its
  height and a column its width. Child `i` gets `(factors[i] - factors[i-1]) / denom`
  of the split axis. A drag on a divider overwrites one factor with
  `min(max(0, p / (size / denom)), denom)`. The view is a class,
  `CollageView`, whose `factors` is an `array<real>` that `DragChanged`
  updates in place. Its invariant, kept by every drag, says the factors end
  in `denom` and lie in `[0, denom]` when no weight is negative. `Frames`
  follows the view's recursion into child views, with every view's factors
  fresh from the tree's weights. It yields every leaf with the size it is
  drawn at.
- **Editor state** (`PhotoEditor`, `photo_editor.dfy`). The view model is a
  class with six adjustment fields, read and written through an
  `AdjustmentOption` dispatch, plus the slider ranges and an ordered list of
  colour filters.
- `Platform` (`platform.dfy`) holds stand-ins for platform values the code
  never looks inside: UIKit colours and images, SwiftUI colours and UUIDs.
  `RealSeq` (`real_seq.dfy`) holds the left-fold sum that Swift's
  `reduce(0, +)` computes, with its lemmas.

`CGFloat` and `Double` are modelled as `real`, so the arithmetic is exact. Swift's
`Optional` is `Option`. Colour-filter equality is Dafny's structural datatype
equality, which is what the Swift enum's synthesised `Equatable` compares.

Main results:
- Fresh factors read back the children's weights (`FreshSharesAreWeights`).
- Shares telescope to the last factor, so a row's child heights, or a
  column's child widths, add up to the view's extent (`PartitionFills`).
  This holds for fresh factors and after any number of drags. A drag never
  touches the last factor (`DragKeepsSettled`), so the view's invariant
  holds in every state and `CollageView.ChildSizes` always fills the view.
- The leaves drawn by the recursive layout cover the canvas's area
  (`FramesCoverArea`). They are exactly the leaves the lookup searches, in the
  same order (`FramesAreLeaves`).
- The divider lands under the pointer, held to the view (`DragFollowsPointer`).
  With no negative weight, every divider is drawn inside the view
  (`DividerWithinView`, `CollageView.Divider`).
- The lookup by id equals a search of the depth-first leaf list
  (`LookupIsFirstPlaceholder`).
- Every preset is well formed and lays out (`PresetsAreWellFormed`, `PresetsLayOut`).
  Its leaf ids are distinct, so the lookup finds each of its slots
  (`PresetLookupFindsLeaf`).
- The fresh layout depends only on the weights' proportions: scaling every
  child weight by a positive factor gives every child the same size
  (`ChildScaleInvariant`).

Where a natural reading and the code differ, the model follows the code:
- A stricter clamp would keep a divider between its neighbours. The code
  clamps it to `[0, denom]` only, so a neighbour's share can become negative.
  `DragMayCrossNeighbour` exhibits this.
- A lookup by id might be expected to return the first leaf with that id.
  The code (`compactMap(...).first`) returns the colour of the first
  *placeholder* leaf with the id. An image leaf with that id yields nil and
  is passed over. The two agree when ids are unique (`LookupFindsLeaf`).
- A tree whose `denom` is zero is invalid. The code does not reject it: a
  non-empty row or column of zero total weight divides by zero in floating
  point, and an empty row or column traps, because its divider loop builds
  the range `0..<-1` (`Collages/Views/CollageView.swift:52`, `:84`). The
  model returns `Err(InvalidTree)` for both, wherever a child size or a
  divider position would need that division.

## Model

| member | source | states |
|---|---|---|
| `Collage.RatioValue` | Collages/Models/CollageType.swift:23-36 | every aspect ratio's value is positive |
| `Collage.RatioLabel` | Collages/Models/CollageType.swift:38-51 | every label has the form "d X d", a digit, " X ", a digit; see `RatioLabelMatchesValue` for its agreement with the value |
| `Collage.RatioLabelMatchesValue` | Collages/Models/CollageType.swift:23-51 | every label reads "a X b" with positive one-digit a and b, and the ratio's value is exactly a / b |
| `Collage.ColorOf` | Collages/Models/CollageType.swift:62-67 | a slot has a colour exactly when it is an empty placeholder, and it is the placeholder's colour; an image slot has none |
| `Collage.Length` | Collages/Models/CollageType.swift:96-105 | `length` is the weight payload of every variant |
| `Collage.Content` | Collages/Models/CollageType.swift:107-116 | a leaf has no children; a row or column yields its container's children |
| `Collage.IsRow` | Collages/Models/CollageType.swift:118-125 | true exactly for a row |
| `Collage.IsData` | Collages/Models/CollageType.swift:127-134 | true exactly for a data leaf |
| `Collage.FactorsArray` | Collages/Models/CollageType.swift:136-143 | one factor per child, none for a data leaf; its entries are stated by `FactorsArrayShape` |
| `Collage.FactorsArrayShape` | Collages/Models/CollageType.swift:136-143 | one factor per child; factor i is the summed weight of children 0 through i |
| `Collage.DataHasNoFactors` | Collages/Models/CollageType.swift:107-143 | a data leaf has no content and an empty factors array |
| `Collage.FactorsMonotone` | Collages/Models/CollageType.swift:136-143 | with no negative child weight the factors are non-negative and non-decreasing, and the last is the sum of all child weights |
| `Collage.FirstColorWithId` | Collages/Models/CollageType.swift:154-169 | reference search over a leaf list: nil exactly when no placeholder leaf carries the id |
| `Collage.FirstColorFound` | Collages/Models/CollageType.swift:154-169 | a colour found is the fill of a placeholder leaf with the id, and no earlier leaf is a placeholder with that id |
| `Collage.GetColorForContainer` | Collages/Models/CollageType.swift:154-169 | no contract of its own; `LookupIsFirstPlaceholder`, `LookupMissingId` and `LookupFindsLeaf` state what it returns |
| `Collage.LookupIsFirstPlaceholder` | Collages/Models/CollageType.swift:154-169 | `getColorForContainer(id)` equals the colour of the first placeholder leaf with that id in depth-first, left-to-right order |
| `Collage.LookupListIsFirstPlaceholder` | Collages/Models/CollageType.swift:157-161 | the children's `compactMap(...).first` equals that search over the children's concatenated leaves |
| `Collage.LookupMissingId` | Collages/Models/CollageType.swift:154-169 | an id that no leaf carries is not found (nil) |
| `Collage.LookupFindsLeaf` | Collages/Models/CollageType.swift:154-169 | with distinct leaf ids, looking up leaf k's id yields its colour when it is a placeholder and nil when it holds an image |
| `Collage.Collages` | Collages/Models/CollageType.swift:176-275 | the twelve preset trees, node for node; `PresetsAreWellFormed` and `PresetsLayOut` state their properties |
| `Collage.PresetIdsAreDistinct` | Collages/Models/CollageType.swift:176-275 | in every preset the leaf ids are pairwise distinct, as fresh UUIDs are |
| `Collage.PresetLookupFindsLeaf` | Collages/Models/CollageType.swift:154-275 | in every preset, looking up any leaf's id yields that leaf's colour |
| `Collage.LastIdAfterSound` | Collages/Models/CollageType.swift:176-275 | a tree whose leaf ids increase depth first has pairwise distinct leaf ids |
| `Collage.PresetsAreWellFormed` | Collages/Models/CollageType.swift:176-275 | twelve presets; in each, every row and column has at least two children, every weight is 1 or 2, so every weight is positive and no split is empty |
| `CollageLayout.DividerCount` | Collages/Views/CollageView.swift:16 | `dividerCount` is one less than the number of factors, and -1 for a data leaf |
| `CollageLayout.Denom` | Collages/Views/CollageView.swift:17 | `denom` is the sum of the children's weights, and 0 for a data leaf |
| `CollageLayout.DenomOfIsSum` | Collages/Views/CollageView.swift:17 | `denom`, the reduce over the children, is the sum of their weights |
| `CollageLayout.FactorsArePrefixDenoms` | Collages/Views/CollageView.swift:16-26 | factor i is the `denom` of the first i + 1 children, the last factor is `denom`, and `dividerCount` is the number of factors less one |
| `CollageLayout.DenomPositive` | Collages/Views/CollageView.swift:17 | a well-formed row or column has a positive `denom` |
| `CollageLayout.FreshSharesAreWeights` | Collages/Views/CollageView.swift:22-43 | with factors freshly initialised from `factorsArray`, child i's share (its factor less the previous, or the first factor) is its weight |
| `CollageLayout.Share` | Collages/Views/CollageView.swift:43 | no contract of its own; `FreshSharesAreWeights` and `SharesTelescope` state what the shares are and what they add up to |
| `CollageLayout.SharesTelescope` | Collages/Views/CollageView.swift:41-44 | the children's shares add up to the last factor, whatever the factors are |
| `CollageLayout.GetSize` | Collages/Views/CollageView.swift:29-33 | a row keeps the width and scales the height by the fraction; a column keeps the height and scales the width |
| `CollageLayout.Partition` | Collages/Views/CollageView.swift:39-82 | one size per child; it fails exactly for a row or column whose `denom` is zero |
| `CollageLayout.FreshFactorsSettled` | Collages/Views/CollageView.swift:19-27 | fresh factors have one entry per child and end in `denom` |
| `CollageLayout.ProportionalExtentsSum` | Collages/Views/CollageView.swift:41-46 | extents `size * share / denom` over factors ending in `denom` add up to `size` |
| `CollageLayout.PartitionFills` | Collages/Views/CollageView.swift:39-82 | for factors ending in `denom` with `denom` non-zero, a row's children keep its width and their heights sum to its height; a column's keep its height and their widths sum to its width |
| `CollageLayout.FreshPartitionIsProportional` | Collages/Views/CollageView.swift:22-46 | from fresh factors, child i's extent along the split axis is `size * weight_i / denom` and the other side is the view's |
| `CollageLayout.DividerOffset` | Collages/Views/CollageView.swift:52-56 | the divider position `size * factor / denom` is defined exactly when `denom` is non-zero |
| `CollageLayout.DenomScaled` | Collages/Views/CollageView.swift:17 | scaling every child weight by `k` scales `denom` by `k` |
| `CollageLayout.ChildScaleInvariant` | Collages/Views/CollageView.swift:22-46 | scaling every child weight by a positive `k` leaves every child's fresh size unchanged |
| `CollageLayout.DividerWithinView` | Collages/Views/CollageView.swift:56 | a factor in `[0, denom]`, with `denom` positive, puts its divider at an offset in `[0, size]` along the split axis |
| `CollageLayout.DragFactor` | Collages/Views/CollageView.swift:59-62 | the dragged factor is at most `denom`, not negative when `denom` is not, and equals `denom` when `denom` is negative |
| `CollageLayout.DragFollowsPointer` | Collages/Views/CollageView.swift:56-62 | with positive extent and `denom`, the dragged divider is drawn at `clamp(pointer, 0, size)`: under the pointer, and within the view |
| `CollageLayout.DragKeepsSettled` | Collages/Views/CollageView.swift:52-62 | a drag changes only the dragged factor, puts it in `[0, denom]` when `denom` is not negative, and keeps the last factor equal to `denom` |
| `CollageLayout.FactorsStayWithin` | Collages/Views/CollageView.swift:84-94 | with no negative weight, fresh factors lie in `[0, denom]` and every drag keeps them there |
| `CollageLayout.DragMayCrossNeighbour` | Collages/Views/CollageView.swift:91-94 | the clamp does not order a factor against its neighbours: three equal children, first divider dragged to the end, middle share -1 |
| `CollageLayout.CollageView.constructor` | Collages/Views/CollageView.swift:22-27 | the view keeps its size and node, its factors start as the node's `factorsArray`, and the view's invariant holds |
| `CollageLayout.CollageView.ChildSizes` | Collages/Views/CollageView.swift:39-46 | from the live factors, one size per child, failing exactly for a zero `denom`; a row's children keep its width and their heights add up to its height, a column's keep its height and their widths add up to its width |
| `CollageLayout.CollageView.Divider` | Collages/Views/CollageView.swift:56 | divider `index`'s offset is defined exactly when `denom` is non-zero, and lies in `[0, size]` along the split axis when no weight is negative and `denom` is positive |
| `CollageLayout.CollageView.DragChanged` | Collages/Views/CollageView.swift:52-95 | exactly the dragged factor changes, to the clamped ratio of the pointer's coordinate along the split axis (y for a row, x for a column), and the view's invariant is kept |
| `CollageLayout.Frames` | Collages/Views/CollageView.swift:35-109 | no contract of its own; `FramesAreLeaves`, `FramesCoverArea` and `WellFormedLaysOut` state what it yields |
| `CollageLayout.FramesOf` | Collages/Views/CollageView.swift:41-48 | no contract of its own; `FramesOfAreLeaves` and `FramesOfCoverArea` state what it yields |
| `CollageLayout.FramesAreLeaves` | Collages/Views/CollageView.swift:35-109 | the recursive layout draws exactly the tree's leaves, depth first and left to right |
| `CollageLayout.FramesOfAreLeaves` | Collages/Views/CollageView.swift:41-48 | the children's layouts, concatenated, draw the children's leaves in order |
| `CollageLayout.PartitionArea` | Collages/Views/CollageView.swift:39-82 | for factors ending in a non-zero `denom` (fresh ones, or after drags), the children's areas add up to the view's area |
| `CollageLayout.FramesCoverArea` | Collages/Views/CollageView.swift:35-109 | the leaf frames of a layout cover the canvas's area exactly |
| `CollageLayout.FramesOfCoverArea` | Collages/Views/CollageView.swift:41-48 | the children's leaf frames cover the areas handed to the children |
| `CollageLayout.WellFormedLaysOut` | Collages/Views/CollageView.swift:35-109 | a tree with positive weights and no empty split always lays out |
| `CollageLayout.PresetsLayOut` | Collages/Models/CollageType.swift:176-275 | every preset lays out at any size, its leaves covering the canvas |
| `PhotoEditor.Range` | Photos/ViewModel/PhotoEditorViewModel.swift:161-170 | every slider range has its lower bound below its upper bound |
| `PhotoEditor.DefaultsInRange` | Photos/ViewModel/PhotoEditorViewModel.swift:161-170 | every slider range has lower bound below upper bound and holds its adjustment's initial value |
| `PhotoEditor.RemoveAll` | Photos/ViewModel/PhotoEditorViewModel.swift:67-68 | no occurrence of the filter remains, and every other filter keeps its count |
| `PhotoEditor.RemoveAllAppend` | Photos/ViewModel/PhotoEditorViewModel.swift:67-68 | removal distributes over concatenation, so kept filters keep their order |
| `PhotoEditor.RemoveAllAbsent` | Photos/ViewModel/PhotoEditorViewModel.swift:67-68 | a list without the filter is unchanged |
| `PhotoEditor.AddThenRemove` | PhotoEditorTests/Unit/PhotoEditorViewModelTests.swift:46-54 | adding a filter and then removing it restores a list that did not hold it |
| `PhotoEditor.PhotoEditorViewModel.constructor` | Photos/ViewModel/PhotoEditorViewModel.swift:13-37 | brightness 0, contrast 1, saturation 1, sharpness 0, exposure 0, blur 0, no filters, the given image, and a processed image present |
| `PhotoEditor.PhotoEditorViewModel.ApplyProcessing` | Photos/ViewModel/PhotoEditorViewModel.swift:78-139 | the processed image is present and rendered from the current image, adjustments, rotation and filters |
| `PhotoEditor.PhotoEditorViewModel.ValueForAdjustment` | Photos/ViewModel/PhotoEditorViewModel.swift:39-48 | no contract of its own; `SetValueForAdjustment` states that it reads back the value just set |
| `PhotoEditor.PhotoEditorViewModel.SetValueForAdjustment` | Photos/ViewModel/PhotoEditorViewModel.swift:39-60 | afterwards `valueForAdjustment(a)` is the new value; the other five adjustments, the filters and the image are unchanged |
| `PhotoEditor.PhotoEditorViewModel.AddColorFilter` | Photos/ViewModel/PhotoEditorViewModel.swift:62-65 | the filter list becomes the old list with the filter appended; nothing else changes but the rendering |
| `PhotoEditor.PhotoEditorViewModel.RemoveColorFilter` | Photos/ViewModel/PhotoEditorViewModel.swift:67-70 | the filter list loses every occurrence of the filter, the rest in order; nothing else changes but the rendering |
| `PhotoEditor.PhotoEditorViewModel.Update` | Photos/ViewModel/PhotoEditorViewModel.swift:72-76 | the image is replaced; adjustments, rotation and filters are unchanged |

## Left out

- The CoreImage filter chain (`applyProcessing`'s filters, `ColorFilter.filter`, `ciContext`, `currentCIImage`) is foreign code on floating-point rasters. The processed image is a `Rendering`: a record of the inputs the chain reads.
- PhotoEditor.PhotoEditorViewModel.ApplyProcessing: does not model the fallback to `originalImage` when CoreImage cannot produce an image; either way the processed image is present.
- `EditorTool.icon`, `CollageType.stringy`, `CollageType.Base`, `CollageRatios.allCases` and the `Identifiable`/`Hashable` conformances are display names and framework plumbing.
- UUIDs are creation-time random strings; the presets number their nodes with distinct `Uuid` values instead.
- Floating-point rounding, infinities and NaN are not modelled. A zero `denom` gives `Err(InvalidTree)` for child sizes and divider positions, and so does an empty row or column, where the Swift code traps on the range `0..<-1`. In the drag, the ratio `p / (size / 0)` is 0, as it is in floating point.
- CollageLayout.CollageView.DragChanged: requires a non-zero extent along the split axis, so a drag on a view of zero extent is not modelled. Such a view arises when a parent's divider is dragged to an end, which gives a child a share of 0. Its own dividers still carry a drag gesture, and in floating point the ratio `pt / (0 / denom)` is infinite.
- CollageLayout.CollageView.DragChanged: requires a row or column and a divider index below `factors.count - 1`. Only those views draw dividers, one per index in that range.
- CollageLayout.Partition: requires at least as many factors as children. With fewer, the Swift code would index out of range and trap.
- The drag's `onEnded` commit (`collageSelector.iterateOverSelectedCollage`) is not modelled. `CollageSelectorViewModel` and the size helpers (`sizeWith(ratio:)`, `minusHeight`, `toSquareSize`) are not part of this model, so the commit and image assignment are not either.
- The recursive layout under a view whose dividers were dragged and not yet committed is not modelled. Such a nested view keeps its own `@State` factors, and `Frames` lays out every level from fresh factors. `ChildSizes` and `PartitionArea` cover live factors one level at a time.
- `Point` is taken to be in the split view's own coordinates. The gesture's coordinate space (it is attached to the offset divider rectangle) is not modelled. `DragFollowsPointer` holds under that reading.
- The positions the VStack/HStack give the children are not modelled; `Frames` records each leaf's size only, so non-overlap is not stated.
- The leaf view's styling, buttons and gestures (`ContainerView`, `selectBlock`, `selectForReplaceMent`, `isMini`) are presentation.
- The other screens, the GIF maker, the document picker, snapshots and the image-selector binding are not part of this model.
