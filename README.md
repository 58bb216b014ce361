# Parasite drag build-up manager (OpenVSP `ParasiteDragMgr`), modelled in Dafny

OpenVSP's parasite drag manager turns the vehicle's components into a drag
build-up table. It keeps one table row per component surface and sub-surface.
Each row has a wetted area, a form factor, an interference factor Q, a skin
friction coefficient, a drag area `f` and a drag coefficient `Cd`. Beside the
table sits an excrescence ledger whose items add drag. An item is one of five
kinds:

- a count (in ten-thousandths of Cd);
- a Cd;
- a percentage of the geometry Cd;
- a drag area;
- a margin on the total.

The manager reports the geometry, subtotal and total drag coefficients and
each row's and each item's share of the total. It can also sort the table by
wetted area or by share of the total, keeping each component's surfaces and
the components grouped under it together.

This project models the discrete, stateful core of that manager and proves
what it computes:

| file | module | what it models |
|---|---|---|
| `values.dfy` | `Values` | `Value = Num(real) \| NaN`, the drag-area and Cf values whose `isnan` branches the manager tests; `Option` |
| `text.dfy` | `Text` | decimal rendering of a count, as `%i` prints it |
| `rows.dfy` | `DragRows` | a table row (the source's parallel `geo_*` vectors), a component description, and the vehicle queries (find, expanded flag, ancestor, sub-surface include flag) as abstract functions |
| `table_build.dfy` | `TableBuild` | `LoadMainTableUserInputs`, `CalcRowSize`, `IsSameGeomSet` |
| `line_items.dfy` | `LineItems` | `IsNotZeroLineItem`, `Calculate_f`, `Calculate_Cd` |
| `ancestors.dfy` | `AncestorGroups` | `OverwritePropertiesFromAncestorGeom` |
| `wetted_area.dfy` | `WettedArea` | `UpdateWettedAreaTotals` |
| `flags.dfy` | `Flags` | `CheckAllTrue` and the `isSorted` flag vector the sorts walk |
| `sorting.dfy` | `TableSort` | the three grouping sorts and their dispatch `SortMap` |
| `excrescence.dfy` | `Excrescence` | the drag totals, the derived excrescence amounts, `UpdateExcres`'s recomputation pass |
| `percent_cd.dfy` | `PercentCd` | `UpdatePercentageCD`'s shares and totals |
| `manager.dfy` | `Manager` | class `ParasiteDragMgr`: the ledger, the current item, the pending name, kind and value, the table rows and the sort selector, with the operations that change them |
| `correlations.dfy` | `Correlations` | the equation-name tables and the polynomial form-factor cases |

Amounts are exact reals; IEEE rounding is not modelled. The vehicle is an
abstract parameter (`DragRows.Vehicle`): the model never looks inside a
component beyond what these queries return.

Source paths below are relative to the repository root. All of them are in
`src/geom_core/ParasiteDragMgr.cpp`.

## Model

| member | source | states |
|---|---|---|
| Values.Times | src/geom_core/ParasiteDragMgr.cpp:781-832 | a product is NaN exactly when a factor is NaN, and otherwise is the product of the numbers |
| Text.DigitChar | src/geom_core/ParasiteDragMgr.cpp:1783 | the character printed for a decimal digit is a digit character worth that digit |
| Text.NatToString | src/geom_core/ParasiteDragMgr.cpp:1783 | a count prints as a non-empty string of digits with no leading zero |
| Text.NatToStringRoundTrip | src/geom_core/ParasiteDragMgr.cpp:1783 | reading back the printed digits gives the count |
| Text.NatToStringInjective | src/geom_core/ParasiteDragMgr.cpp:1783 | different counts print differently |
| Text.NumberedLabelsDistinct | src/geom_core/ParasiteDragMgr.cpp:205 | labels made of one prefix and different numbers differ |
| Excrescence.KindCode | src/geom_core/ParasiteDragMgr.cpp:1755-1762 | the kind selector is an integer 0..4, and 0 is the count kind (the value also reported when no item is current) |
| Excrescence.TypeString | src/geom_core/ParasiteDragMgr.cpp:1795-1820 | every kind has a non-empty type column text |
| Excrescence.TypeStringsDistinct | src/geom_core/ParasiteDragMgr.cpp:1795-1820 | different kinds show different type texts |
| Excrescence.GeometryCd | src/geom_core/ParasiteDragMgr.cpp:1688-1699 | the geometry Cd is never negative |
| Excrescence.GeometryCdBounds | src/geom_core/ParasiteDragMgr.cpp:1688-1699 | every positive row Cd is at most the geometry Cd; with no positive row Cd the geometry Cd is 0 |
| Excrescence.TotalExcresSplits | src/geom_core/ParasiteDragMgr.cpp:1916-1941 | all excrescence drag is the non-margin subtotal plus the margin items' drag |
| Excrescence.NoMarginNoMarginCd | src/geom_core/ParasiteDragMgr.cpp:1916-1941 | with no margin item the margin drag is 0, so total and subtotal excrescence drag agree |
| Excrescence.SingleMarginCd | src/geom_core/ParasiteDragMgr.cpp:1916-1941 | when at most one margin item exists, the margin drag is that item's amount |
| Excrescence.SubTotalOnlyReadsNonMarginAmounts | src/geom_core/ParasiteDragMgr.cpp:1916-1929 | the non-margin subtotal depends only on the non-margin items' amounts |
| Excrescence.TotalCd | src/geom_core/ParasiteDragMgr.cpp:1701-1716 | the total Cd is the subtotal plus the margin drag when a margin item exists, otherwise the subtotal |
| Excrescence.SubTotalCd | src/geom_core/ParasiteDragMgr.cpp:1701-1704 | defines the subtotal Cd as the geometry Cd plus the non-margin excrescence drag |
| Excrescence.SubTotalExcresCd | src/geom_core/ParasiteDragMgr.cpp:1916-1929 | defines the non-margin excrescence drag as the sum of the amounts of every item that is not a margin |
| Excrescence.TotalExcresCd | src/geom_core/ParasiteDragMgr.cpp:1931-1941 | defines the excrescence drag as the sum of every item's amount, margin items included |
| Excrescence.CalcPercentageGeomCd | src/geom_core/ParasiteDragMgr.cpp:1865-1880 | a percent-of-geometry amount is p/100 of the geometry Cd when degenerate geometry exists and that Cd is positive, otherwise 0 |
| Excrescence.CalcPercentageTotalCD | src/geom_core/ParasiteDragMgr.cpp:1882-1897 | a margin of p percent makes subtotal plus margin equal to the subtotal scaled by 100/(100-p) when degenerate geometry exists and the subtotal is positive, otherwise 0 |
| Excrescence.MarginClosedForm | src/geom_core/ParasiteDragMgr.cpp:1888 | the source's expression S/((100-p)/100) - S satisfies that margin equation |
| Excrescence.CalcDragAreaCd | src/geom_core/ParasiteDragMgr.cpp:1899-1914 | a drag-area amount times Sref is the drag area when degenerate geometry exists and the geometry Cd is positive, otherwise 0 |
| Excrescence.Refreshed | src/geom_core/ParasiteDragMgr.cpp:2494-2536 | one item rewritten by UpdateExcres: only input and amount change; the current item's input comes from the edited value, the others keep theirs; an unedited Cd or count item keeps its amount; the others are recomputed from their kind |
| Excrescence.AmountsPass | src/geom_core/ParasiteDragMgr.cpp:2494-2536 | after k steps of the pass only input and amount have changed, the first k inputs are the ones used, and the items from k on are untouched |
| Excrescence.RefreshDragAreas | src/geom_core/ParasiteDragMgr.cpp:2538-2545 | every drag area becomes amount times Sref when the subtotal is positive, and otherwise stays; nothing else changes |
| Excrescence.AmountAt | src/geom_core/ParasiteDragMgr.cpp:2494-2536 | item i ends as it was rewritten when the pass reached it, while the earlier items were already updated |
| Excrescence.NonMarginAmount | src/geom_core/ParasiteDragMgr.cpp:2494-2536 | a non-margin item ends the pass with its settled amount and the input used |
| Excrescence.MarginAmount | src/geom_core/ParasiteDragMgr.cpp:2494-2536 | a margin item's amount is computed from the ledger as the pass found it, so the items after it are still stale |
| Excrescence.OnePassSettlesNonMargin | src/geom_core/ParasiteDragMgr.cpp:2491-2548 | after one UpdateExcres every non-margin item holds its settled amount |
| Excrescence.SettledPassKeepsNonMargin | src/geom_core/ParasiteDragMgr.cpp:2494-2536 | once settled, a further pass leaves non-margin amounts as they are |
| Excrescence.SettledMargin | src/geom_core/ParasiteDragMgr.cpp:2494-2536 | on a settled ledger the margin amount agrees with the updated subtotal |
| Excrescence.SecondUpdateSettlesMargin | src/geom_core/ParasiteDragMgr.cpp:2491-2548 | running UpdateExcres twice leaves the margin consistent with the final subtotal |
| Excrescence.MarginShareOfTotal | src/geom_core/ParasiteDragMgr.cpp:1706-1716 | with a settled margin of p percent, the total Cd times (100-p) is 100 times the subtotal |
| Excrescence.StaleMarginAfterOnePass | src/geom_core/ParasiteDragMgr.cpp:2494-2536 | a margin listed before a percent-of-geometry item is computed from that item's stale amount, so one pass can leave it inconsistent |
| PercentCd.GeoPercTotalScales | src/geom_core/ParasiteDragMgr.cpp:2244-2265 | the geometry shares add up to the Cd of the rows with a numeric drag area, over the total |
| PercentCd.ExcresPercTotalScales | src/geom_core/ParasiteDragMgr.cpp:2270-2284 | the excrescence shares add up to all excrescence drag over the total |
| PercentCd.CountedCdIsGeometryCd | src/geom_core/ParasiteDragMgr.cpp:1688-1699 | with numeric drag areas and no negative row Cd, the counted Cd is the geometry Cd |
| PercentCd.TotalIsGeometryPlusExcres | src/geom_core/ParasiteDragMgr.cpp:1706-1716 | the total Cd is the geometry Cd plus all excrescence drag, with or without a margin item |
| PercentCd.SharesSumToOne | src/geom_core/ParasiteDragMgr.cpp:2238-2287 | with degenerate geometry, numeric drag areas and no negative row Cd, the reported geometry and excrescence shares add up to 1 |
| PercentCd.SharesOfTotalSumToOne | src/geom_core/ParasiteDragMgr.cpp:2238-2287 | shares of a total made up by the counted Cd and the excrescences add up to 1 |
| PercentCd.NoDegenGeomNoShares | src/geom_core/ParasiteDragMgr.cpp:2238-2287 | without degenerate geometry every share and drag-area total is 0 |
| Correlations.TurbCfEqnName | src/geom_core/ParasiteDragMgr.cpp:1191-1285 | every turbulent equation has a non-empty name, and "ERROR" is returned exactly for an unknown selector |
| Correlations.AssignTurbCfEqnNameAsWritten | src/geom_core/ParasiteDragMgr.cpp:1191-1285 | as written, every case except the flow-corrected roughness one returns the table name and leaves the stored name alone |
| Correlations.FlowCorrectionNameLost | src/geom_core/ParasiteDragMgr.cpp:1273 | as written, the flow-corrected roughness case returns the empty name and stores the table's name in the member instead |
| Correlations.LamCfEqnName | src/geom_core/ParasiteDragMgr.cpp:1287-1304 | laminar names are non-empty, and "ERROR" is returned exactly for an unknown selector |
| Correlations.WingFFEqnName | src/geom_core/ParasiteDragMgr.cpp:1507-1572 | wing form-factor names are non-empty, and "ERROR" is returned exactly for an unknown selector |
| Correlations.BodyFFEqnName | src/geom_core/ParasiteDragMgr.cpp:1574-1624 | body form-factor names are non-empty, and "ERROR" is returned exactly for an unknown selector |
| Correlations.WingFF | src/geom_core/ParasiteDragMgr.cpp:1306-1446 | exactly the trigonometric cases are left unevaluated; manual gives 1 and an unknown selector 0 |
| Correlations.Pow4 | src/geom_core/ParasiteDragMgr.cpp:1306-1446 | a fourth power is never negative |
| Correlations.ZeroThicknessWingFF | src/geom_core/ParasiteDragMgr.cpp:1306-1446 | every polynomial wing equation gives 1 at zero thickness |
| Correlations.WingFFAtLeastOne | src/geom_core/ParasiteDragMgr.cpp:1306-1446 | for non-negative thickness, the monotone polynomial wing equations are at least 1 and grow with thickness |
| Correlations.BodyFF | src/geom_core/ParasiteDragMgr.cpp:1448-1505 | exactly the fractional-power cases are left unevaluated; manual gives 1 and an unknown selector 0 |
| Correlations.BodyFFAboveOne | src/geom_core/ParasiteDragMgr.cpp:1448-1505 | for positive fineness ratio every rational body equation exceeds 1 |
| Flags.CheckAllTrue | src/geom_core/ParasiteDragMgr.cpp:2953-2963 | true exactly when every flag is set |
| Flags.CountFalse | src/geom_core/ParasiteDragMgr.cpp:2786 | the number of unsorted rows is at most the row count |
| Flags.CountFalseMark | src/geom_core/ParasiteDragMgr.cpp:2802 | marking an unsorted row lowers the unsorted count by one |
| Flags.PickedMark | src/geom_core/ParasiteDragMgr.cpp:2802-2803 | marking a row and pushing it adds exactly that row to the rows taken |
| Flags.PickedNone | src/geom_core/ParasiteDragMgr.cpp:2782 | with no row marked, no row has been taken |
| Flags.PickedAll | src/geom_core/ParasiteDragMgr.cpp:2786-2839 | with every row marked, the rows taken are the whole table |
| Flags.FirstFalseFrom | src/geom_core/ParasiteDragMgr.cpp:2829-2836 | the next unsorted slot from i: every row in between is sorted |
| Flags.GapStep | src/geom_core/ParasiteDragMgr.cpp:2829-2836 | moving the cycling cursor past a sorted row brings it closer to the next unsorted row |
| TableSort.MarkAndPush | src/geom_core/ParasiteDragMgr.cpp:2808-2811 | marks one unsorted row and appends it, keeping the output a permutation of the rows taken |
| TableSort.PushReflected | src/geom_core/ParasiteDragMgr.cpp:2805-2813 | appends exactly the unsorted rows of the chosen row's component; none is left unsorted |
| TableSort.PushIncorporated | src/geom_core/ParasiteDragMgr.cpp:2815-2827 | appends rows from other components whose ancestor is the chosen component; no unsorted such row is left |
| TableSort.PushGroup | src/geom_core/ParasiteDragMgr.cpp:2802-2827 | the chosen row, then its component's rows, then the incorporated rows, are appended as one block; the output stays a permutation of the rows taken |
| TableSort.BlocksExtend | src/geom_core/ParasiteDragMgr.cpp:2802-2827 | a pushed group adds one well-formed block to the block structure of the output |
| TableSort.AddBlock | src/geom_core/ParasiteDragMgr.cpp:2786-2837 | each loop step preserves the block structure and the permutation |
| TableSort.AddBlockKeyed | src/geom_core/ParasiteDragMgr.cpp:2790-2801 | a group headed by a maximum keeps the block heads in descending key order |
| TableSort.FindMax | src/geom_core/ParasiteDragMgr.cpp:2790-2801 | finds an unsorted row with the largest key, starting at the cursor and taking a later row only when strictly larger, so a row other than the cursor beats every earlier unsorted row |
| TableSort.PlaceLargest | src/geom_core/ParasiteDragMgr.cpp:2788-2828 | one iteration at an unsorted cursor keeps the blocks, the descending heads and the permutation, and sorts at least one more row |
| TableSort.SortByKey | src/geom_core/ParasiteDragMgr.cpp:2775-2905 | the result is a permutation of the table, made of closed blocks (a head, its component's rows, then its incorporated rows) whose heads descend by key |
| TableSort.SortMapByWettedArea | src/geom_core/ParasiteDragMgr.cpp:2775-2840 | permutation, closed blocks, heads descending by wetted area |
| TableSort.SortMapByPercentageCD | src/geom_core/ParasiteDragMgr.cpp:2842-2905 | permutation, closed blocks, heads descending by share of total Cd |
| TableSort.HeadsInInputOrderExtend | src/geom_core/ParasiteDragMgr.cpp:2917-2922 | a new head taken at input index i comes after every earlier head in input order |
| TableSort.EarlierPlaced | src/geom_core/ParasiteDragMgr.cpp:2917-2919 | every row before the loop index has already been placed |
| TableSort.InputOrderStep | src/geom_core/ParasiteDragMgr.cpp:2919-2947 | one grouping step keeps the blocks and puts the new head after the earlier ones |
| TableSort.PlaceInInputOrder | src/geom_core/ParasiteDragMgr.cpp:2919-2947 | one step of the ancestor-grouping loop keeps the blocks, marks every row up to i, and keeps heads in input order |
| TableSort.SortMainTableVecByGroupedAncestorGeoms | src/geom_core/ParasiteDragMgr.cpp:2907-2951 | the result is a permutation of the table made of closed blocks whose heads keep their input order |
| TableSort.SortMap | src/geom_core/ParasiteDragMgr.cpp:2754-2773 | whichever sort the selector picks, the rows are permuted into closed blocks, in descending key order for the two key sorts |
| TableSort.LoneHead | src/geom_core/ParasiteDragMgr.cpp:2805-2827 | if the second row is not attached to the first, it heads the second block |
| TableSort.HeadAtLeast | src/geom_core/ParasiteDragMgr.cpp:2790-2801 | a block head's key is at least that of every row from that head on |
| TableSort.FirstRowLargest | src/geom_core/ParasiteDragMgr.cpp:2786-2839 | the first sorted row has the largest key of all rows |
| TableSort.BlockGathersGeometry | src/geom_core/ParasiteDragMgr.cpp:2805-2813 | after a block head, the rows of the same component come first and only them, up to the block's split |
| TableSort.LargestFirst | src/geom_core/ParasiteDragMgr.cpp:2786-2803 | a strictly largest row comes first, followed by a permutation of the others |
| TableSort.WettedAreaThreeRows | src/geom_core/ParasiteDragMgr.cpp:2775-2840 | A (10), B (5, same component as A), C (20) sort by wetted area to C, A, B |
| TableSort.SecondBlock | src/geom_core/ParasiteDragMgr.cpp:2805-2813 | after C, A heads the next block and B, of the same component, follows it |
| LineItems.MainSurfaceAlwaysCounts | src/geom_core/ParasiteDragMgr.cpp:3027-3078 | the main surface of an ungrouped component is always a line item |
| LineItems.IsNotZeroLineItem | src/geom_core/ParasiteDragMgr.cpp:3027-3078 | defines which rows carry their own drag: a surface row when it is the 0th surface, its list is expanded or it is a custom-geometry row, and it is not grouped into a collapsed ancestor; a sub-surface row when it is included and its component's list is expanded |
| LineItems.ExpandedListCounts | src/geom_core/ParasiteDragMgr.cpp:3055-3077 | in an expanded list every surface row carries its own drag, and a sub-surface row does exactly when it is included in the wetted area |
| LineItems.CollapsedSubSurfaceIsZero | src/geom_core/ParasiteDragMgr.cpp:3066-3077 | a sub-surface of a component whose list is collapsed is a zero line item |
| LineItems.CollapsedRepeatedSurfaceIsZero | src/geom_core/ParasiteDragMgr.cpp:3055-3064 | a surface after the 0th of a collapsed, non-custom component is a zero line item |
| LineItems.GroupedIntoCollapsedAncestorIsZero | src/geom_core/ParasiteDragMgr.cpp:3055-3064 | a surface grouped into an ancestor is a zero line item when neither its own list nor the ancestor's is expanded |
| LineItems.EffectiveQ | src/geom_core/ParasiteDragMgr.cpp:789-797 | Q defaults to 1 when its input is -1 |
| LineItems.EffectiveFF | src/geom_core/ParasiteDragMgr.cpp:799-807 | the user form factor is used unless it is -1, then the computed one |
| LineItems.CalculateF | src/geom_core/ParasiteDragMgr.cpp:781-832 | only f changes; it is -1 without degenerate geometry, 0 for a zero line item, otherwise Swet·Q·Cf·FF |
| LineItems.RowDragArea | src/geom_core/ParasiteDragMgr.cpp:789-830 | one row's f, by the same three cases |
| LineItems.CalculateCd | src/geom_core/ParasiteDragMgr.cpp:834-871 | only Cd changes; it is -1 without degenerate geometry, 0 for a zero line item or a NaN f, otherwise Cd·Sref = f |
| LineItems.RowCd | src/geom_core/ParasiteDragMgr.cpp:841-869 | one row's Cd, by the same four cases |
| AncestorGroups.LastAncestorRow | src/geom_core/ParasiteDragMgr.cpp:938-955 | the last row (other than i) that is the main surface of i's grouped ancestor, or -1 when there is none |
| AncestorGroups.CopyFromAncestorRows | src/geom_core/ParasiteDragMgr.cpp:938-955 | a row inherits the grouped properties of the last matching ancestor row, as that row stands when the loop reaches it |
| AncestorGroups.OverwritePropertiesFromAncestorGeom | src/geom_core/ParasiteDragMgr.cpp:934-958 | each row changes only in the inherited fields, and equals its resolution against the last matching ancestor row |
| AncestorGroups.InheritsFromUngroupedAncestor | src/geom_core/ParasiteDragMgr.cpp:934-958 | a grouped row whose ancestor row is itself ungrouped ends with that row's properties |
| AncestorGroups.InheritsOriginalOfLaterAncestor | src/geom_core/ParasiteDragMgr.cpp:934-958 | when the matching ancestor row comes later, the row copies that ancestor's original properties |
| AncestorGroups.UngroupedRowUnchanged | src/geom_core/ParasiteDragMgr.cpp:934-958 | an ungrouped row, or one without an ancestor row, is left unchanged |
| WettedArea.FoldsSubSurface | src/geom_core/ParasiteDragMgr.cpp:1989-2006 | defines when the first pass folds a sub-surface row into a row: the row is the collapsed 0th surface of the sub-surface's component or of the ancestor it is grouped into, and the sub-surface is included |
| WettedArea.FoldsSurface | src/geom_core/ParasiteDragMgr.cpp:2030-2040 | defines when the second pass folds one surface row into another of the same shape that is not an expanded list: same component and 0th surface, or 0th surface of a collapsed descendant's ancestor, or a custom-geometry row |
| WettedArea.SubSurfaceRowGainsNothing | src/geom_core/ParasiteDragMgr.cpp:1989-1990 | a sub-surface row absorbs no area in the first pass |
| WettedArea.SubSurfaceRowGainsNothingLater | src/geom_core/ParasiteDragMgr.cpp:2018 | a sub-surface row absorbs no area in the second pass |
| WettedArea.SurfaceSumReadsBelow | src/geom_core/ParasiteDragMgr.cpp:2012-2043 | in the second pass, row i's gain reads already-updated areas only from rows before i |
| WettedArea.AbsorbSubSurfaces | src/geom_core/ParasiteDragMgr.cpp:1986-2008 | row i gains the areas of the sub-surfaces that fold into it, and only row i changes |
| WettedArea.FoldSubSurfaces | src/geom_core/ParasiteDragMgr.cpp:1983-2009 | every row gains exactly the original areas of the sub-surfaces folding into it; nothing else changes |
| WettedArea.AbsorbSurfaces | src/geom_core/ParasiteDragMgr.cpp:2014-2042 | row i gains the current areas of the surfaces that fold into it, and only row i changes |
| WettedArea.FoldSurfaces | src/geom_core/ParasiteDragMgr.cpp:2011-2043 | every row gains the areas of the folding surfaces, earlier rows counted with their updated areas; nothing else changes |
| WettedArea.UpdateWettedAreaTotals | src/geom_core/ParasiteDragMgr.cpp:1978-2045 | without degenerate geometry nothing changes; otherwise the sub-surface pass then the surface pass, in that order |
| WettedArea.SubSurfaceRowKeepsArea | src/geom_core/ParasiteDragMgr.cpp:1978-2045 | a sub-surface row keeps its own area through both passes |
| WettedArea.IncludedSubSurfaceCountedOnce | src/geom_core/ParasiteDragMgr.cpp:1989-1997 | an included sub-surface folds into its main surface exactly when it is not a line item of its own |
| WettedArea.SurfaceCountedOnce | src/geom_core/ParasiteDragMgr.cpp:2030-2040 | a repeated surface folds into its main surface exactly when it is not a line item of its own |
| TableBuild.MainRow | src/geom_core/ParasiteDragMgr.cpp:191-252 | a surface row carries its component's inputs |
| TableBuild.MainRows | src/geom_core/ParasiteDragMgr.cpp:191-252 | a component contributes one row per surface |
| TableBuild.MakeMainRow | src/geom_core/ParasiteDragMgr.cpp:193-251 | builds surface row j, copying the previous row's inputs when the surface type repeats |
| TableBuild.AppendMainRows | src/geom_core/ParasiteDragMgr.cpp:191-252 | appends exactly the component's surface rows; the last one carries its inputs |
| TableBuild.SubSurfaceRows | src/geom_core/ParasiteDragMgr.cpp:256-284 | a sub-surface contributes one row per surface |
| TableBuild.AppendSubSurfaceRows | src/geom_core/ParasiteDragMgr.cpp:256-284 | appends exactly the sub-surface's rows, each copying the previous row's inputs |
| TableBuild.AppendSubRows | src/geom_core/ParasiteDragMgr.cpp:254-285 | appends exactly the rows of all the component's sub-surfaces |
| TableBuild.AppendGeomRows | src/geom_core/ParasiteDragMgr.cpp:186-286 | appends the component's surface rows, then its sub-surface rows |
| TableBuild.LoadMainTableUserInputs | src/geom_core/ParasiteDragMgr.cpp:180-288 | builds exactly the table specification: each found component's rows, in the order of the component list |
| TableBuild.CalcRowSize | src/geom_core/ParasiteDragMgr.cpp:313-338 | computes the row count definition |
| TableBuild.RowCount | src/geom_core/ParasiteDragMgr.cpp:313-338 | defines the row count: for every component found, its surfaces plus one row per sub-surface and symmetric copy; a missing component adds nothing |
| TableBuild.SubRowsLength | src/geom_core/ParasiteDragMgr.cpp:254-285 | m sub-surfaces give m rows per surface |
| TableBuild.GeomRowsLength | src/geom_core/ParasiteDragMgr.cpp:186-286 | a component gives its surfaces plus sub-surfaces times surfaces rows |
| TableBuild.RowCountMatchesTable | src/geom_core/ParasiteDragMgr.cpp:313-338 | the row count equals the table length when every component with sub-surfaces has as many symmetric copies as surfaces |
| TableBuild.RowCountDiffersFromTable | src/geom_core/ParasiteDragMgr.cpp:313-338 | a component with two surfaces, one copy and one sub-surface is counted as 3 rows but builds 4 |
| TableBuild.RepeatedSurfaceSharesInputs | src/geom_core/ParasiteDragMgr.cpp:194-207 | a repeated surface type keeps the component's inputs, its own surface number and the label name_j |
| TableBuild.SubRowsCarryGeomInputs | src/geom_core/ParasiteDragMgr.cpp:256-284 | sub-surface rows are ungrouped, not expanded, and carry the component's inputs |
| TableBuild.IsSameGeomSet | src/geom_core/ParasiteDragMgr.cpp:2981-3025 | true exactly when the active components give the stored row count and are the stored component list |
| Manager.DefaultLabel | src/geom_core/ParasiteDragMgr.cpp:1781-1785 | a default item label starts with "EXCRES_" |
| Manager.DefaultLabelsDistinct | src/geom_core/ParasiteDragMgr.cpp:1781-1785 | default labels for different ledger sizes differ |
| Manager.ValueLimits | src/geom_core/ParasiteDragMgr.cpp:2553-2572 | every kind's value range starts at 0 and has a positive upper limit; the limit is 100 exactly for the percentage kinds |
| Manager.RemoveKeepsOneMargin | src/geom_core/ParasiteDragMgr.cpp:1841-1857 | deleting an item keeps at most one margin item |
| Manager.SecondMargin | src/geom_core/ParasiteDragMgr.cpp:1770-1779 | the refusal loop refuses exactly a margin when a margin item exists |
| Manager.NewItem | src/geom_core/ParasiteDragMgr.cpp:1781-1825 | the new item: default or given label; value/10000 for a count, the value for a Cd, 0 otherwise; f = amount·Sref; share 0 |
| Manager.AppendItem | src/geom_core/ParasiteDragMgr.cpp:1770-1829 | refuses exactly a second margin and leaves the ledger; otherwise appends exactly the new item; keeps at most one margin |
| Manager.RecomputeItem | src/geom_core/ParasiteDragMgr.cpp:2496-2535 | one body of UpdateExcres's first loop rewrites the item as the pass specifies |
| Manager.UpdateAmountsInOrder | src/geom_core/ParasiteDragMgr.cpp:2494-2536 | the first loop of UpdateExcres produces the pass's result |
| Manager.RefreshDragAreasInOrder | src/geom_core/ParasiteDragMgr.cpp:2538-2545 | the second loop produces the drag-area refresh |
| Manager.GeomShareLoop | src/geom_core/ParasiteDragMgr.cpp:2244-2268 | UpdatePercentageCD's first loop computes the geometry shares, drag-area total and share total |
| Manager.ExcresShareLoop | src/geom_core/ParasiteDragMgr.cpp:2270-2286 | its second loop sets each item's share and computes the excrescence totals |
| Manager.ParasiteDragMgr.constructor | src/geom_core/ParasiteDragMgr.cpp:24-111 | an empty ledger with no current item, count kind, value 0 in range 0..200, Sref 100, no sorting, empty table |
| Manager.ParasiteDragMgr.Renew | src/geom_core/ParasiteDragMgr.cpp:113-132 | clears the table and ledger and resets the pending kind and value |
| Manager.ParasiteDragMgr.AddExcrescence | src/geom_core/ParasiteDragMgr.cpp:1764-1830 | a second margin is refused with nothing changed; otherwise the ledger grows by the new item, which becomes current, and the pending name is cleared |
| Manager.ParasiteDragMgr.AddExcrescenceWith | src/geom_core/ParasiteDragMgr.cpp:1832-1839 | sets the pending name, kind and value, then adds as above |
| Manager.ParasiteDragMgr.UpdateCurrentExcresVal | src/geom_core/ParasiteDragMgr.cpp:2550-2574 | the pending kind, limits and value follow the current item |
| Manager.ParasiteDragMgr.DeleteExcrescence | src/geom_core/ParasiteDragMgr.cpp:1841-1857 | removes exactly the current item, keeping the others in order; then item 0 is current, or none when the ledger is empty |
| Manager.ParasiteDragMgr.DeleteExcrescenceAt | src/geom_core/ParasiteDragMgr.cpp:1859-1863 | makes index current, then deletes as above |
| Manager.ParasiteDragMgr.SetExcresLabel | src/geom_core/ParasiteDragMgr.cpp:1653-1659 | relabels only the current item; nothing happens when no item is current |
| Manager.ParasiteDragMgr.GetCurrentExcresLabel | src/geom_core/ParasiteDragMgr.cpp:1728-1735 | the current item's label, or "" with none |
| Manager.ParasiteDragMgr.GetCurrentExcresTypeString | src/geom_core/ParasiteDragMgr.cpp:1737-1744 | the current item's type text, or "" with none |
| Manager.ParasiteDragMgr.GetCurrentExcresValue | src/geom_core/ParasiteDragMgr.cpp:1746-1753 | the current item's input, or 0 with none |
| Manager.ParasiteDragMgr.GetCurrentExcresType | src/geom_core/ParasiteDragMgr.cpp:1755-1762 | the current item's kind code, or 0 (count) with none |
| Manager.ParasiteDragMgr.GetExcresIDs | src/geom_core/ParasiteDragMgr.cpp:1718-1726 | the item labels, in ledger order |
| Manager.ParasiteDragMgr.UpdateExcres | src/geom_core/ParasiteDragMgr.cpp:2491-2548 | the ledger becomes the pass's result followed by the drag-area refresh, and the report columns are rebuilt |
| Manager.ParasiteDragMgr.ConsolidateExcres | src/geom_core/ParasiteDragMgr.cpp:1943-1959 | the report columns list every item's label, type, input, amount and share, in ledger order |
| Manager.ParasiteDragMgr.UpdatePercentageCD | src/geom_core/ParasiteDragMgr.cpp:2238-2287 | appends the geometry shares, stores the totals, and sets each item's share of the total Cd |
| Manager.ParasiteDragMgr.SortMap | src/geom_core/ParasiteDragMgr.cpp:2754-2773 | permutes the table into closed blocks, ordered as the stored selector asks |

## Left out

- Vehicle access is replaced by the abstract queries of `DragRows.Vehicle`. This covers component lookup, the expanded-list flag, the grouped ancestor and the sub-surface include flag. To keep the model self-contained, `SetupFullCalculation`, `SetActiveGeomVec`, `RefreshDegenGeom` and `Calculate_Swet`'s tag lookup are left out.
- The parallel `geo_*` vectors are bundled into one `DragRows.Row` record per row. Appending to all of them at once is appending one row.
- `Parm` objects are plain fields: value clamping to limits is not modelled, because `Parm.h` is not part of this model. `Manager.ParasiteDragMgr.UpdateCurrentExcresVal` stores the limits but does not clamp the value to them.
- Integer selectors (`vsp::EXCRESCENCE_*`, the Cf and FF equation types, the sort flag) are datatypes. An out-of-range form-factor or equation selector is an explicit `Other...` constructor, and an out-of-range excrescence kind cannot be expressed.
- Floating point is exact real arithmetic. NaN is modelled where the source tests for it (`isnan` of f). Infinities are not, so each division carries a divisor-is-non-zero precondition: Sref in `LineItems.CalculateCd` and `Excrescence.CalcDragAreaCd`; `100 - p` in `Excrescence.CalcPercentageTotalCD`; the fineness ratio in `Correlations.BodyFF`.
- Manager.ParasiteDragMgr.UpdateExcres: requires that Sref is non-zero where a drag area is converted and, when degenerate geometry exists, that no margin input is 100 percent (`Excrescence.Computable`). The source divides by (100 - p) / 100 only when degenerate geometry exists and the subtotal is positive, so the model also excludes a 100 percent margin with degenerate geometry and a subtotal that is not positive, where the source would store 0.
- TableBuild.IsSameGeomSet: requires that every component id in the new set is found and that every component other than a mesh, blank or hinge has a surface. The source dereferences the result of `FindGeom` and `GetSurfPtr(0)` without checking (lines 2989-2993), so the model leaves that case out.
- Manager.ParasiteDragMgr.UpdatePercentageCD: requires a non-zero total Cd whenever degenerate geometry exists. The source divides regardless and would store infinities or NaN.
- TableSort.SortMainTableVecByGroupedAncestorGeoms: requires every row's component to be found. The source dereferences the lookup without a check. `TableSort.SortMap` and `Manager.ParasiteDragMgr.SortMap` inherit the requirement.
- The sorts' block structure (`heads`, `splits`) and `WettedArea.UpdateWettedAreaTotals`'s intermediate table (`mid`) are ghost or auxiliary results. They describe the output and are not part of the source's state.
- The transcendental cases are `None`:
  - CalcFFWing: Shevell, Kroo, DATCOM and the Jenkinson cases use cos and sqrt.
  - CalcFFBody: Hoerner, Torenbeek, Shevell, Jenkinson fuselage and Jobe use fractional powers.
- `CalcTurbCf` and `CalcLamCf` are floating-point correlations with pow, log and an implicit Newton solve, so they are left out.
- The geometric derivations (`CalcReferenceBodyLength`, `CalcReferenceChord`, `Calculate_AvgSweep`, `Calculate_fineRat`) use sqrt and atan, so they are left out.
- Atmosphere and unit conversion (`UpdateAtmos`, `UpdateVinf`, `UpdateAlt`, `UpdateTemp`, `UpdatePres`, `ReynoldsNumCalc`) depend on external models.
- XML persistence (`EncodeXml`, `DecodeXml`) and CSV and results export are I/O.
- UI parameter activation and labels (`UpdateParmActivity`, `DeactivateParms`, `UpdateTempLimits`, `UpdateAltLimits`, `UpdateExportLabels`) are UI state.
- The `Calculate_ALL` and `Update` orchestration is a sequence of the modelled operations plus the foreign calls above.
- `CalcRowSize` and the table builder disagree for a component with sub-surfaces whose symmetric-copy count differs from its surface count. The model keeps both as written: `TableBuild.RowCountDiffersFromTable` exhibits the disagreement and `TableBuild.RowCountMatchesTable` states when they agree.
- The drag totals (`GetGeometryCd`, `GetSubTotalCD`, `GetTotalCD`, `GetSubTotalExcresCd`, `GetTotalExcresCD`) are pure functions of the ledger and the row Cds in `Excrescence`. The class reads them, and they take no method form of their own.

## Findings

| source | as written | input that shows it | evidently intended | confidence | as-written member | corrected member |
|---|---|---|---|---|---|---|
| src/geom_core/ParasiteDragMgr.cpp:1273 | the flow-corrected Schlichting roughness case assigns the member `m_TurbCfEqnName` instead of the local result, so `AssignTurbCfEqnName` returns "" | selector `CF_TURB_ROUGHNESS_SCHLICHTING_AVG_FLOW_CORRECTION` | return "Schlichting Avg Roughness w Flow Correctioin", like every other case | high (not executed) | Correlations.AssignTurbCfEqnNameAsWritten, Correlations.FlowCorrectionNameLost | Correlations.TurbCfEqnName |
