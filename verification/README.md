# Verified models of the exact reference layer

The repository checks its geometry kernel against an independent Python reference layer that works in exact rationals.
This project models the parts of that layer which decide something exactly, in Dafny, and proves what they promise.
`Fraction` becomes `real`. A list that the source updates step by step is a `seq` reassigned in a method's loop; the
union-find and the cell complex are classes with the source's fields.

**Polynomials and roots** (`Polynomials`, `Divisibility`, `PolynomialDivision`, `Irreducibles`,
`SquareFreeFactorization`, `RootMultiplicity`, `Bernstein`, `SignVariations`, `AffineSubstitution`,
`SubdivisionBounds`, `RootIsolation`, `ExactRoots`). Polynomials are coefficient lists, ascending, compared by their
values; canonical lists with the same values are equal. Long division and Euclid's algorithm give the unique quotient
and the monic greatest common divisor with a Bezout combination. Yun's loop terminates on every nonzero polynomial and
gives the square-free factorization. De Casteljau halving is exact and diminishes sign variations, and the stack of
the root isolation always runs empty: on short intervals a square-free polynomial has at most one variation, because a
Bezout combination keeps it and its derivative from being small together. `FindRoots` therefore has each root in [0,
1] in one entry, with its multiplicity in the original polynomial, and reports it to within 2^-151 of its bracket's
width unless Newton's method gives a point inside the bracket. That a bracket with opposite signs at its ends holds a
root is the intermediate value property, which the laws of an ordered field do not give; the lemmas that say each
bracket and each entry has exactly one root take it as a hypothesis (`PicksZeros`).

**Spline curve edits** (`BernsteinProducts`, `CoxBasis`, `CurveEdits`, `CurveLaws`, `CurveLosses`). The Cox basis is a
partition of unity with nonnegative Bernstein coefficients on every nonempty span of every nondecreasing knot list, so
positive weights stay positive through extraction, trimming, splitting, reversal and elevation. An arc of an edit
shows exactly its part of the curve if and only if the curve there has no coefficient above the arc's degree: always,
unless an elevation below the curve's degree is asked for, which the source does not refuse. The interval is cut into
pieces in one way, and the assertion on the weights fails if and only if it does on one of their arcs. `CurveLosses`
has two inputs with an elevation below the degree: one on which the assertion fails, one whose arc is another curve.
Unless the edit trims, the arcs follow one another without gap or overlap over any number of periods. `CurveLaws` says
what is shown in terms of the poles: at every parameter the weighted poles under Cox's recursion, so that an affine
map of the poles is an affine map of the arcs.

**Boolean bookkeeping** (`ParitySweep`, `Components`, `GreenAtoms`). The sweep tags every point off the crossings with
the atom its two parities say; atoms conserve both profiles; intervals are the same union, ordered and apart. Green's
accumulation cuts both profiles' elements at their meetings, classifies the pieces and sums their integrals into
atoms: AB and A hold the integral over the whole first profile, AB and B that over the second if and only if shared
pieces of one sense have equal integrals, and any union of atoms the integral over its boundary. A spline element's
integral does not depend on the spans it is cut into. Union-find keeps a forest and a partition, and the number it
returns is the number of connected components of the overlap graph.

**Chains of Booleans** (`ExpressionTrees`, `ChainMeasures`, `ConvexPolygons`, `CornerLists`, `ConvexPieces`,
`ChainArea`). For any tree over any number of solids, each piece of the boundary is counted exactly once, with its
sign, if and only if the tree's value differs across it; summed over all faces, that is the boundary of the tree's
set, and volume and moments obey inclusion and exclusion. Clipping the corners of a convex polygon by any half-plane
leaves the corners of a convex polygon, whose inside is the polygon's in the half-plane, or nothing. Convex-piece
arithmetic refines the set function: off the lines, a point lies in exactly one piece of the result or in none.

**Seamed to seamless topology** (`SeamRuns`, `SeamRotations`, `ClosedRuns`, `SheetCells`, `CellModel`,
`CellConversion`, `CellChecks`, `CellValidator`, `RadialOrder`, `FinPlaces`, `ConversionAccepted`, `Acceptance`,
`SenseCounts`, `CellEuler`, `AccountedModels`, `AcceptedModels`, `RejectedModels`, `FaultsFound`, `FaultsInFaces`,
`FaultsAround`, `ShellConnections`, `VertexLinks`, `ShellsAccepted`). A merged loop keeps exactly its uses that are
not seams, cyclically, with windings that sum to zero, wherever it is read from; one seam of a closed loop leaves two
closed runs. For the cell of any valid seamed solid or closed shell, `ConversionIsAccepted` says which issues the
validator raises, from its references to its accounting around edges: none but region 1 without a shell, open loops,
seam edges and the accounting's own, each exactly on a stated condition on the runs.

The conversion does not always give a cell that the validator accepts, and `RejectedModels` has valid models for which
it does not: an edge that a face runs along and back stays as a seam edge; two circles that touch where a seam ends
become rings of one loop, which is then open; the empty model has no shell for region 1; and a seam that leads from a
vertex to itself can leave the vertex pinched. For models whose edges are used once in each sense by faces of one
shell, as the seamed validator's own accounting checks, the conditions are on the model: around every edge of the cell
the shells close (`EveryEdgeCloses`), and the cell is accepted if and only if there is a shell, every edge that one
face uses both ways is a seam of a loop that merges, and no run stays open (`AcceptedIff`); where loops close and have
one seam each, a run stays open exactly through a ring among others. A regular model is one of these whose loops
close, whose merged loops have one seam each, used nowhere else, whose edges used both ways by a face are such seams,
and whose shells have each dropped vertex on one of their ring edges; its cell is accepted outright
(`AcceptedOutright`). The checks on whole shells follow: faces stay as connected as they were, a kept vertex is
pinched exactly if it was, unless a seam leads from it to itself, and the Euler count is the same, although vertices,
edges and loops change, exactly if each dropped vertex of the shell lies on one of its ring edges.

That nothing is raised means something because faults are found: from any cell that raises nothing, `FaultsFound`,
`FaultsInFaces` and `FaultsAround` change one entity, in most laws to anything else of its kind, and say exactly when
the validator reports it, for every kind of issue.

**Exact intersections** (`Vectors`, `PlaneSections`, `PairSections`). A plane's section of a sphere or cylinder has
exactly the plane's points on the surface. It is the zero set of a quadratic without cross term, classified exactly:
the assertions against a surviving cross term, a linear section and a parabola hold, and coefficients of different
signs cannot occur.

`Reals` names products: lemmas that combine many of them hide what the name stands for and use its laws. `Basics`
holds what several modules use.

## Model

| member | source | states |
|---|---|---|
| Polynomials.PTrim | rust/tools/boolean_reference.py:697-701 | the result is canonical: its last coefficient is nonzero or it is the zero list, and it takes the same values |
| Polynomials.PEval | rust/tools/boolean_reference.py:779-783 | Horner's loop gives the polynomial's value |
| PolynomialDivision.PMul | rust/tools/boolean_reference.py:713-719 | the convolution loops give a canonical list whose value at every point is the product of the factors' values |
| PolynomialDivision.PDivMod | rust/tools/boolean_reference.py:735-750 | a == q b + r with deg r < deg b, for every nonzero b including constants; the loop terminates and its assertion holds |
| PolynomialDivision.DivisionUnique | rust/tools/boolean_reference.py:735-750 | quotient and remainder are determined by that equation, so no other pair could be returned |
| PolynomialDivision.PGcd | rust/tools/boolean_reference.py:753-757 | terminates with a monic common divisor that is a Bezout combination of the inputs |
| Divisibility.GcdUnique | rust/tools/boolean_reference.py:753-757 | two monic common divisors that are combinations are the same polynomial |
| Divisibility.GcdIsGreatest | rust/tools/boolean_reference.py:753-757 | every common divisor divides it |
| SquareFreeFactorization.SquareFreeFactors | rust/tools/boolean_reference.py:760-776 | Yun's loop terminates for every nonzero polynomial; its factors are monic, square-free, pairwise coprime, of distinct multiplicities, and their powers times the leading coefficient are the polynomial |
| Bernstein.PowerOfBernsteinOf | rust/tools/boolean_reference.py:790-802 | the power form of the Bernstein form is the list it came from |
| Bernstein.BernsteinOfPowerOf | rust/tools/boolean_reference.py:790-802 | and the other way round |
| Bernstein.EvalPowerOf | rust/tools/boolean_reference.py:790-794 | the power form takes the values of the Bezier curve by de Casteljau's definition |
| Bernstein.Halves | rust/tools/boolean_reference.py:805-814 | the loop's two lists are the left and right edges of de Casteljau's triangle at 1/2 |
| Bernstein.BEvalLeft | rust/tools/boolean_reference.py:805-814 | the left edge is the same curve on the left part, at any splitting parameter |
| Bernstein.BEvalRight | rust/tools/boolean_reference.py:805-814 | the right edge is the same curve on the right part |
| SignVariations.SubdivisionDiminishes | rust/tools/boolean_reference.py:805-819 | for every coefficient list, the variations of the two halves sum to at most the whole list's |
| SignVariations.NoVariationNoRoot | rust/tools/boolean_reference.py:858-860 | no variation and a nonzero coefficient: no root inside |
| SignVariations.OneVariationOneRoot | rust/tools/boolean_reference.py:861-863 | one variation: at most one root inside |
| SignVariations.OneVariationEnds | rust/tools/boolean_reference.py:861-863 | one variation and nonzero ends: the ends have opposite signs |
| SubdivisionBounds.ShortIntervalDecided | rust/tools/boolean_reference.py:851-866 | a cell whose width is below a positive bound that depends on the polynomial alone is dropped or becomes a bracket |
| RootIsolation.Isolate | rust/tools/boolean_reference.py:848-866 | the stack runs empty, and every root in [0, 1] is exact or in exactly one bracket; brackets are apart and have opposite signs at their ends and at most one root; every exact value is a root |
| RootIsolation.OneRootEach | rust/tools/boolean_reference.py:861-863 | given the intermediate value property, each bracket holds exactly one root |
| ExactRoots.Bisect | rust/tools/boolean_reference.py:824-837 | 150 halvings keep the sign change, stay inside the bracket and end within 2^-151 of its width from the root |
| ExactRoots.RootsOfFactor | rust/tools/boolean_reference.py:848-879 | one entry for each root of the factor in [0, 1], exact or bracketed; a bracketed one reports the polished point if that lies in the bracket, and else a point within 2^-151 of the bracket's width from its root |
| ExactRoots.FindRoots | rust/tools/boolean_reference.py:840-880 | fails exactly on the zero polynomial; otherwise the entries are sorted, each root in [0, 1] is in one of them, with its exact multiplicity in the polynomial, every entry is a root or an enclosure with opposite signs and at most one root, and a bracketed entry reports the polished point if that lies in its bracket, and else a point within 2^-151 of its width from the root |
| ExactRoots.EntriesHaveRoots | rust/tools/boolean_reference.py:840-880 | given the intermediate value property, every entry has exactly one root, of its multiplicity |
| RootMultiplicity.MultiplicityUnique | rust/tools/boolean_reference.py:840-843 | a root has one multiplicity |
| RootMultiplicity.FactorRoot | rust/tools/boolean_reference.py:848-868 | a root of a factor of the factorization has that factor's multiplicity in the polynomial |
| CoxBasis.AddLists | rust/tools/bezier_editing_reference.py:23-27 | the coefficient-wise sum, over the longer list |
| CoxBasis.TimesLinearList | rust/tools/bezier_editing_reference.py:30-33 | the product with a + b t |
| CoxBasis.PartitionOfUnity | rust/tools/bezier_editing_reference.py:62-70 | on a nonempty span of any nondecreasing knot list the basis functions of a degree sum to 1 at every point |
| CoxBasis.CoefficientsNonnegative | rust/tools/bezier_editing_reference.py:62-70 | on the span, every basis function has nonnegative Bernstein coefficients |
| CoxBasis.Homogeneous | rust/tools/bezier_editing_reference.py:71-77 | the accumulated list is the weighted sum of the span's basis functions over the cyclic values |
| CoxBasis.HomogeneousWeightPositive | rust/tools/bezier_editing_reference.py:62-77 | positive weights give a weight polynomial with positive Bernstein coefficients |
| AffineSubstitution.EvalCompose | rust/tools/bezier_editing_reference.py:55-58 | the substituted polynomial at t is the polynomial at a + b t, and so for derivatives |
| AffineSubstitution.ComposeCompose | rust/tools/bezier_editing_reference.py:55-58 | two substitutions are one |
| CurveEdits.MatrixIsSubstitution | rust/tools/bezier_editing_reference.py:50-52 | the binomial matrix applied to a list is the substitution |
| CurveEdits.Substitute | rust/tools/bezier_editing_reference.py:36-58 | clearing denominators row by row, whatever nonzero ones, and dividing once gives the substituted polynomial |
| CurveEdits.BEvalControls | rust/tools/bezier_editing_reference.py:103-103 | the controls at any degree from the list's own take the polynomial's values: elevation denotes the same curve |
| CurveEdits.ElevationExact | rust/tools/bezier_editing_reference.py:103-103 | for any degree, also below the list's own, the controls take the substituted polynomial's values if and only if the polynomial has no coefficient above that degree |
| CurveEdits.ControlsPositive | rust/tools/bezier_editing_reference.py:93-104 | restricted to any part of the span, either way round, and at any degree from the list's own, a positive weight polynomial has positive controls |
| CurveEdits.Turns | rust/tools/bezier_editing_reference.py:84-84 | the turns reach over the interval, the first turn reaches beyond its start, and the last begins no later than its end |
| CurveEdits.Pieces | rust/tools/bezier_editing_reference.py:83-92 | fails exactly on the source's ValueError condition; otherwise the pieces tile [first, last] in order, each the whole part of it in one knot span of one turn |
| CurveEdits.CutUnique | rust/tools/bezier_editing_reference.py:83-92 | that determines the pieces |
| CurveEdits.EditPiece | rust/tools/bezier_editing_reference.py:93-105 | fails exactly where the assertion on the weights does, which takes an elevation below the curve's degree; otherwise the arcs of the piece: where they lie, their degree, and their controls as those of the stated substitution of the piece's curve, with positive weights |
| CurveEdits.Expected | rust/tools/bezier_editing_reference.py:80-106 | the ValueError exactly on its condition; the failed assertion if it fails on an arc of one of the pieces, which takes an elevation below the curve's degree, and arcs if it fails on none; each arc has the controls of the stated substitution, with positive weights, and takes the curve's values at the parameters its interval shows if and only if the curve there has no coefficient above the arc's degree |
| CurveEdits.ElevatedShows | rust/tools/bezier_editing_reference.py:93-105 | at the curve's degree or above, every arc shows its part of the curve |
| CurveLaws.BasisIsCox | rust/tools/bezier_editing_reference.py:62-70 | the coefficient lists take the values of Cox's recursion in the knot parameter, quotients by 0 being 0 |
| CurveLaws.EditTraces | rust/tools/bezier_editing_reference.py:80-106 | every piece becomes one arc, or two split at 3/8, of the degree asked for, in its place; from the curve's degree up, at every t coordinate c of the arc is the sum of weight times pole coordinate times basis function over the span's cyclic poles, at the parameter t reaches in the arc's interval, counted back for a reversal |
| CurveLaws.AffineInvariance | rust/tools/bezier_editing_reference.py:71-106 | an affine map of the poles maps every control point of every arc, at any degree, and keeps places and weights |
| CurveLaws.MovedFails | rust/tools/bezier_editing_reference.py:104-104 | nor does it change whether the assertion on the weights fails |
| CurveLosses.ElevateToLine | rust/tools/bezier_editing_reference.py:93-104 | for any quadratic piece with positive weights and elevation 1: the assertion fails if and only if the middle weight is at most half the first; otherwise there is one arc, which is the curve if and only if the curve has no square terms |
| CurveLosses.WeightsFail | rust/tools/bezier_editing_reference.py:104-104 | an input on which the assertion fails: weights 4, 1, 4 and elevation 1 |
| CurveLosses.ParabolaLost | rust/tools/bezier_editing_reference.py:93-105 | an input whose one arc is not the curve: a parabola with equal weights and elevation 1 |
| CurveEdits.ArcsTile | rust/tools/bezier_editing_reference.py:83-105 | unless the operation trims, the arcs run from first to last without gap or overlap |
| ParitySweep.Sweep | rust/tools/boolean_reference.py:386-402 | fails exactly on an odd number of crossings; otherwise the pieces are ordered and a point off the crossings lies in a piece of an atom if and only if its two parities say that atom |
| ParitySweep.Accumulate | rust/tools/boolean_reference.py:403-408 | each atom gains the sum of right less left integrals of its pieces |
| ParitySweep.SweepConserves | rust/tools/boolean_reference.py:386-408 | AB with A is the first profile's whole integral and AB with B the second's, however the crossings interleave and coincide |
| ParitySweep.Intervals | rust/tools/boolean_reference.py:517-528 | the same union as ordered intervals with a gap between each two, each from the left end of a piece of it to the right end of one, with their keys, and as a function of the pieces |
| Components.UnionFind.Find | rust/tools/boolean_reference.py:535-539 | terminates at the node's root, keeps the forest and every node's root |
| Components.UnionFind.Union | rust/tools/boolean_reference.py:541-542 | keeps the forest and merges the two classes of connectivity |
| Components.MergedClasses | rust/tools/boolean_reference.py:541-542 | relabelling one class with another's label is connectivity with one more edge |
| Components.CountComponents | rust/tools/boolean_reference.py:530-564 | the result is the number of connected components of the overlap graph over all slabs, bands and intervals |
| Components.OverlapIff | rust/tools/boolean_reference.py:549-549 | two intervals overlap exactly if some segment longer than the tolerance lies in both |
| Components.ComponentCountUnique | rust/tools/boolean_reference.py:564-564 | a graph has one such number |
| GreenAtoms.Cuts | rust/tools/boolean_reference.py:1416-1426 | the cuts rise from 0 to 1 in steps longer than the tolerance, each meeting in [0, 1] lies within the tolerance of one, and every cut between 0 and 1 is a meeting |
| GreenAtoms.Pieces | rust/tools/boolean_reference.py:1410-1434 | fails exactly if a piece is classified differently along it; otherwise the pieces of all elements between their cuts, each with its length and class |
| GreenAtoms.ClassesFound | rust/tools/boolean_reference.py:1427-1433 | an element whose class changes only at its cuts is classified without failing, and each piece has the class of all its inner points |
| GreenAtoms.SplineGreen | rust/tools/boolean_reference.py:1054-1075 | for spans cut from one function, the sum over the overlapping spans is that function's difference between the ends; for any spans, calls that share an end add up |
| GreenAtoms.SpansWhole | rust/tools/boolean_reference.py:1054-1075 | cutting an element into any number of spans, each with its own parameter from 0 to 1, changes no integral between any two of its parameters |
| GreenAtoms.PiecesTile | rust/tools/boolean_reference.py:1410-1434 | the integrals of a profile's classified pieces add up to the integrals over its whole elements |
| GreenAtoms.Atoms | rust/tools/boolean_reference.py:1436-1452 | cuts and classifies both profiles and sums: each atom holds its signed shares of all pieces' integrals, and the dictionary their lengths by profile and class |
| GreenAtoms.GreenIsBoundary | rust/tools/boolean_reference.py:1439-1451 | over any union of atoms the sums are the integral over exactly the pieces with the union on one side, signed by the side, unless B is in it and shared pieces of opposite senses do not cancel |
| GreenAtoms.GreenConserves | rust/tools/boolean_reference.py:1436-1452 | from elements to atoms: AB with A is the integral over the whole first profile; AB with B that over the whole second if and only if the shared pieces of one sense have equal integrals |
| GreenAtoms.Perimeter | rust/tools/boolean_reference.py:499-513 | from the lengths by class, the length of the pieces whose two sides the union holds exactly one of, shared pieces once |
| ExpressionTrees.EvaluateDependsOnLeaves | rust/tools/chained_curved_boolean_reference.py:105-116 | memberships that agree on the leaves give the same value |
| ExpressionTrees.ChainExpr | rust/tools/chained_curved_boolean_reference.py:119-125 | the tree's set function is the chain's, for any number of further operations, and each solid is a leaf |
| ExpressionTrees.Contribution | rust/tools/chained_curved_boolean_reference.py:554-574 | the filled membership arrays give the step of the tree's value from front to back, or 0 where the input is unused or an earlier used one differs |
| ExpressionTrees.CountedOnce | rust/tools/chained_curved_boolean_reference.py:554-574 | the contributions of all inputs to a piece, turned to its side, sum to the step of the tree's value; exactly the first used input that differs contributes, and only if the value differs |
| ChainMeasures.Collect | rust/tools/chained_curved_boolean_reference.py:434-490 | the dictionary has each class once and the same total as the records, for every tree |
| ChainMeasures.Measures | rust/tools/chained_curved_boolean_reference.py:576-589 | area, volume and world moments are the sums of all faces' signed class measures |
| ChainMeasures.MeasuresAreBoundary | rust/tools/chained_curved_boolean_reference.py:576-589 | however pieces are shared by faces, those sums are the area and outward-oriented measures of the pieces across which the tree's value differs, each once |
| ChainMeasures.MeasuresBalance | rust/tools/chained_curved_boolean_reference.py:576-589 | volume and moments obey inclusion and exclusion for any two trees: union and common part sum to the two sets, difference and common part to the first, so a solid less a disjoint one keeps its volume |
| ChainMeasures.BoundaryReversed | rust/tools/chained_curved_boolean_reference.py:576-589 | pieces seen from their other sides have the same area and negated volume and moments |
| ConvexPolygons.Clip | rust/tools/curved_boolean_reference.py:1113-1127 | the loop's corners are those that its edges add in order, or none if they are fewer than three |
| ConvexPolygons.ClippedHalved | rust/tools/curved_boolean_reference.py:1113-1127 | of a convex polygon and any half-plane, that is a convex polygon again, or nothing; off the line, its inside is the polygon's in the half-plane; and its edges lie on lines of the polygon's edges or on the half-plane's |
| ConvexPolygons.WithinSide | rust/tools/curved_boolean_reference.py:1113-1127 | a linear function that is at most 0 at a convex polygon's corners is so inside |
| ConvexPolygons.EdgePlanesDescribe | rust/tools/chained_boolean_reference.py:94-102 | the half-planes of a polygon's edges have its inside as their common interior, and its edges' lines as their lines |
| ConvexPolygons.CcwConvex | rust/tools/chained_boolean_reference.py:105-118 | the corners of a convex polygon stay as they are, and clockwise ones are reversed |
| CornerLists.CcwKeeps | rust/tools/chained_boolean_reference.py:105-118 | of any corner list the result is nothing or at least three corners, exactly the given ones, none like the next round, with the given list's area taken positively, starting with its first corner unless it is turned |
| ConvexPieces.Parallelogram | rust/tools/curved_boolean_reference.py:1262-1274 | the corners, turned counter-clockwise, are a convex polygon with exactly the points between the two chord lines and the two heights inside, and its half-planes describe it |
| ConvexPieces.Subtract | rust/tools/curved_boolean_reference.py:1305-1316 | convex polygons, and off the lines, a point of the polygon outside the convex region lies in exactly one of them, any other in none |
| ConvexPieces.PieceCommon | rust/tools/chained_boolean_reference.py:121-135 | for pieces of corners with half-planes that describe them: such pieces of the intersection |
| ConvexPieces.PieceCut | rust/tools/chained_boolean_reference.py:138-150 | such pieces of the difference, and with the tool's pieces those of the union |
| ConvexPieces.PieceOp | rust/tools/chained_boolean_reference.py:153-158 | for disjoint inputs, off all lines, a point lies in exactly one piece if the operation holds of its memberships and in none otherwise |
| ConvexPieces.ChainPieces | rust/tools/chained_boolean_reference.py:218-229 | the same for the whole chain, swapped or not, with or without a selector, against the chained set function |
| ConvexPieces.ChainedIsChain | rust/tools/chained_boolean_reference.py:218-229 | the chained set function is that of the expression trees' chain, with a selector kept where the selector is |
| ChainArea.BoundsChain | rust/tools/chained_boolean_reference.py:630-638 | whether the set function differs between the two sides the classes describe |
| ChainArea.AddPiece | rust/tools/chained_boolean_reference.py:682-687 | the area is added exactly for counted pieces |
| ChainArea.AreaCountedOnce | rust/tools/chained_boolean_reference.py:677-688 | for any set function of any number of solids, a piece is counted exactly once if the function differs across it and never otherwise |
| SeamRuns.FindSeams | rust/tools/cell_reference.py:261-264 | the edges used exactly twice, each once |
| SeamRuns.CheckPair | rust/tools/cell_reference.py:268-282 | accepts exactly the seams whose two uses are a period apart, to either side, opposite, and continue their neighbours |
| SeamRotations.PairIsMoved | rust/tools/cell_reference.py:272-278 | two uses are a period apart exactly if their pcurves are one segment, run along in the two senses, moved by plus or minus the period |
| SeamRuns.SplitRuns | rust/tools/cell_reference.py:286-298 | the runs of the loop read from its first seam use round |
| SeamRuns.SeamMerge | rust/tools/cell_reference.py:257-306 | succeeds exactly on mergeable loops, and returns the seams and the runs with their windings |
| SeamRotations.MergeableAnywhere | rust/tools/cell_reference.py:257-306 | whether a loop merges does not depend on the use it is read from |
| SeamRotations.MergedAnywhere | rust/tools/cell_reference.py:257-306 | nor do its seams, and its runs with their windings only in which comes first |
| SeamRuns.MergeBalances | rust/tools/cell_reference.py:257-306 | the runs are a cyclic rearrangement of exactly the uses that are not seams; the windings sum to 0 and none is 0 |
| SeamRuns.OneSeamTwoRuns | rust/tools/cell_reference.py:257-306 | one seam edge leaves exactly two runs with opposite windings |
| ClosedRuns.OneSeamClosed | rust/tools/cell_reference.py:257-306 | one seam edge of a closed loop leaves two closed runs, each starting at one of the seam's ends |
| CellConversion.SplitFace | rust/tools/cell_reference.py:326-336 | a face's runs are its loops', merged where they can be, with the seams they lose |
| CellConversion.SplitKeepsFace | rust/tools/cell_reference.py:326-336 | splitting keeps every use but the lost seams', and the windings sum to 0, all 0 off cylinders |
| CellConversion.FindRemoved | rust/tools/cell_reference.py:338-339 | exactly the lost edges that no kept use has |
| CellConversion.FindDropped | rust/tools/cell_reference.py:346-353 | exactly the seams' vertices that end no remaining edge but closed curves on one vertex |
| CellConversion.Renumber | rust/tools/cell_reference.py:340-344 | the remaining indices, numbered in order, and both directions of the numbering |
| CellConversion.Cell.AddRun | rust/tools/cell_reference.py:380-386 | appends a run's fins and the loop of them |
| CellConversion.Cell.AddFace | rust/tools/cell_reference.py:377-387 | appends a face with its runs |
| CellConversion.Cell.LinkFins | rust/tools/cell_reference.py:388-390 | every edge lists exactly the fins that use it, in order |
| CellConversion.BuildTwins | rust/tools/cell_reference.py:410-417 | the twins of the nonempty shells in the order of their numbers, with a bounded void region for each but the first |
| CellConversion.InRangeCounted | rust/tools/cell_reference.py:416-416 | of a twin's faces exactly those that are there, as often as the shell lists them |
| CellConversion.ToCell | rust/tools/cell_reference.py:322-418 | the new cell is the one described by a plan of the model, for every kind of model; it fails only on a lost seam that the model has no edge for |
| SheetCells.SheetListed | rust/tools/cell_reference.py:391-397 | both sides of every face of a sheet's cell are listed once, by the one shell the face names, and no side is reported |
| SheetCells.OneShellIssues | rust/tools/cell_reference.py:391-402 | of the shells and regions of a sheet's, wire's or acorn's cell nothing is reported but a shell with nothing in it |
| ConversionAccepted.NoLostEdgeOutside | rust/tools/cell_reference.py:338-352 | which a valid model does not have |
| ConversionAccepted.SidesListed | rust/tools/cell_reference.py:367-417 | each face is listed once in front, by its owner, and once behind, by the owner's twin |
| Acceptance.ConversionIsAccepted | rust/tools/cell_reference.py:322-418 | for the cell of every valid solid or closed shell and every issue up to the accounting around edges: raised if and only if it is region 1 without a shell for a model without shells, an open loop of a run that does not close or has a ring among others, a seam edge that two kept uses in a face leave, or what the accounting says of an edge's kept uses |
| AccountedModels.EveryEdgeCloses | rust/tools/cell_reference.py:674-697 | for every valid model whose edges are used once in each sense by faces of one shell, every edge of the cell has two fins around which the shells close |
| AccountedModels.LostDisappears | rust/tools/cell_reference.py:338-339 | a merged seam of such a model uses up both uses of its edge, so what a face loses is removed |
| AccountedModels.SeamStaysIff | rust/tools/cell_reference.py:667-672 | an edge of such a model's cell has two fins in one face if and only if a face of the model uses it both ways |
| AcceptedModels.SeamsMergeIff | rust/tools/cell_reference.py:667-672 | no edge has, if and only if every edge that a face uses both ways is a seam of a loop that merges |
| AcceptedModels.AccountedExceptional | rust/tools/cell_reference.py:322-418 | such a model's cell raises exactly: region 1 without a shell for a model without shells, open loops of runs that stay open, and seam edges for kept edges that a face of the model uses both ways |
| AcceptedModels.AcceptedIff | rust/tools/cell_reference.py:322-418 | its cell is accepted if and only if the model has a shell, every edge that a face uses both ways is a seam of a loop that merges, and no run stays open |
| AcceptedModels.OpenByRing | rust/tools/cell_reference.py:632-647 | where its loops close and have one seam each, used nowhere else, a run stays open if and only if it has several uses, one of them of a ring |
| AcceptedModels.NoOpenLoop | rust/tools/cell_reference.py:632-647 | every loop of a regular model's cell closes, or is one ring |
| AcceptedModels.AcceptedOutright | rust/tools/cell_reference.py:322-418 | the cell of a regular model raises no issue, unless the model has no shell |
| AcceptedModels.NoShellsNothing | rust/tools/brep_reference.py:599-612 | a valid model without shells is empty |
| RejectedModels.EmptyModelRejected | rust/tools/cell_reference.py:660-661 | the empty model is valid, and its cell raises region 1 without a shell |
| RejectedModels.FoldedRejected | rust/tools/cell_reference.py:667-672 | a valid, closed, accounted model of one plane face that runs along an edge and back; its cell raises a seam edge |
| RejectedModels.TouchingRejected | rust/tools/cell_reference.py:632-647 | a valid, closed, accounted cylinder whose lower plane has a second circle through the seam's end; its cell raises an open loop |
| RejectedModels.NeckedRejected | rust/tools/cell_reference.py:737-764 | a valid, closed, accounted cylinder whose seam leads from a vertex to itself; that vertex is pinched in the cell and not in the model |
| AcceptedModels.ConvertAndValidate | rust/tools/cell_reference.py:322-698 | conversion, which does not fail, and validation in turn report exactly those issues: for an accounted model none of the accounting, and none at all for a regular model with a shell |
| CellValidator.References | rust/tools/cell_reference.py:543-562 | exactly the entities with an index out of range |
| CellValidator.OwnerIssues | rust/tools/cell_reference.py:567-585 | exactly the fins in no loop or several, and the loops in no face or several |
| CellValidator.EdgeIssues | rust/tools/cell_reference.py:586-606 | exactly the edges whose fins are not their users, the unused edges and vertices, and the malformed rings |
| CellValidator.Listings | rust/tools/cell_reference.py:608-613 | each side's shells with repetitions |
| CellValidator.FaceIssues | rust/tools/cell_reference.py:614-656 | exactly the faces with wrong sides, empty or open loops or unbalanced windings, and the faces with wrong sides themselves |
| CellValidator.ShellIssues | rust/tools/cell_reference.py:657-666 | exactly the empty shells and the regions that disagree with them |
| CellValidator.AroundIssues | rust/tools/cell_reference.py:667-697 | exactly the edges with two fins in one face, and the accounting's verdict on each edge whose usable fins do not close |
| CellValidator.Validate | rust/tools/cell_reference.py:525-697 | reports exactly the issues a cell raises, references before structure |
| FaultsFound.EdgeReferenceFound | rust/tools/cell_reference.py:544-546 | an edge put into a clean cell raises its reference issue, and then nothing else, exactly if it names a vertex or fin that is not there |
| FaultsFound.FinReferenceFound | rust/tools/cell_reference.py:547-549 | the same for a fin and its edge |
| FaultsFound.LoopReferenceFound | rust/tools/cell_reference.py:550-552 | the same for a loop, its fins and its vertex |
| FaultsFound.FaceReferenceFound | rust/tools/cell_reference.py:553-555 | the same for a face, its loops and its two shells |
| FaultsFound.ShellReferenceFound | rust/tools/cell_reference.py:556-559 | the same for a shell, its region, sides, wires and acorns |
| FaultsFound.RegionReferenceFound | rust/tools/cell_reference.py:560-564 | the same for a region and its shells |
| FaultsFound.FinOwnersFound | rust/tools/cell_reference.py:567-576 | any other list of fins of one loop: exactly the fins it drops are without a loop, and exactly those it repeats or takes from another loop are reused |
| FaultsFound.LoopOwnersFound | rust/tools/cell_reference.py:577-585 | any other list of loops of one face, the same |
| FaultsFound.EdgeFinsFound | rust/tools/cell_reference.py:586-591 | any other list of fins of an edge is reported exactly if it differs as a multiset |
| FaultsFound.FinMoveFound | rust/tools/cell_reference.py:586-591 | a fin moved to another edge is reported at both edges |
| FaultsFound.VertexFoundOnEdge | rust/tools/cell_reference.py:592-597 | a new vertex is reported as unused until an edge starts or ends at it |
| FaultsFound.VertexFoundOnLoop | rust/tools/cell_reference.py:592-597 | or a loop stands at it |
| FaultsFound.VertexFoundAsAcorn | rust/tools/cell_reference.py:592-597 | or a shell has it as an acorn |
| FaultsFound.EdgeFoundUnused | rust/tools/cell_reference.py:598-601 | a new edge is reported as unused until a fin runs along it |
| FaultsFound.EdgeFoundUnwired | rust/tools/cell_reference.py:598-601 | or it is a shell's wire |
| FaultsFound.RingFound | rust/tools/cell_reference.py:602-606 | any other ends and curve of an edge are reported exactly if one end alone is missing, or both are and the curve does not close |
| FaultsFound.ShellFound | rust/tools/cell_reference.py:609-611 | any other shell in the place of one is reported as empty exactly if it holds nothing, and as unlisted exactly if its region does not list it |
| FaultsFound.RegionFound | rust/tools/cell_reference.py:657-666 | any other list of shells of a region: reported exactly if a number repeats, exactly if it is empty and the region not the first, and for each shell of the region exactly if it is no longer listed |
| FaultsFound.OuterRegionFound | rust/tools/cell_reference.py:662-663 | the first region is reported exactly if it is not void |
| FaultsInFaces.SidesFound | rust/tools/cell_reference.py:614-627 | any other list of sides of one shell: each face is reported as without a shell, reused, in two shells or one-sided exactly by how often its two sides are then listed |
| FaultsInFaces.SideShellsFound | rust/tools/cell_reference.py:624-625 | other shells named by a face are reported exactly if they are not those that list it |
| FaultsInFaces.EmptyFaceFound | rust/tools/cell_reference.py:628-632 | a face without loops is reported exactly if it is no sphere or torus |
| FaultsInFaces.EmptyLoopFound | rust/tools/cell_reference.py:633-640 | a loop without fins is reported exactly if it is no vertex loop |
| FaultsInFaces.WindingFound | rust/tools/cell_reference.py:641-656 | other windings of one loop, in either direction, are reported exactly if they differ, on every kind of surface unless a cone or sphere has a vertex loop |
| FaultsInFaces.PoleWindingFound | rust/tools/cell_reference.py:648-656 | with a vertex loop, a cone or sphere is reported exactly if a v winding changed or the u windings no longer sum to -1, 0 or 1 |
| FaultsInFaces.BandNeedsPole | rust/tools/cell_reference.py:648-656 | in any cell, a band that winds once round a cone or sphere is reported exactly if the face has no vertex loop |
| FaultsInFaces.TurnedFinFound | rust/tools/cell_reference.py:643-647 | a fin turned round opens its loop exactly if its edge has two different vertices |
| FaultsInFaces.RingInLoopFound | rust/tools/cell_reference.py:643-647 | an edge that loses its vertices opens its loop exactly if the loop has other fins |
| FaultsInFaces.SeamFound | rust/tools/cell_reference.py:667-672 | where fins and loops have one owner each, an edge is a seam exactly if two of its fins are in one face |
| FaultsInFaces.SeamMade | rust/tools/cell_reference.py:667-672 | a fin moved to the edge of another fin of its face makes that edge a seam |
| FaultsAround.TurnFoundAround | rust/tools/cell_reference.py:674-695 | a fin turned round is reported by the accounting exactly if its face has two different shells, with the verdict that the shells' pairs, the number of fins and the two faces say |
| FaultsAround.FreeFound | rust/tools/cell_reference.py:677-695 | a face whose sides are wrong leaves an edge it shares with one other face free, exactly if that face has two different shells |
| FaultsAround.MismatchExcused | rust/tools/cell_reference.py:677-679 | an edge whose own list of fins is wrong is left out of the accounting |
| FaultsAround.RegularIsClean | rust/tools/cell_reference.py:322-698 | the cell of a regular model with a shell is clean, so all this holds of it |
| FaultsAround.RegularWindingFound | rust/tools/cell_reference.py:648-656 | in particular, any number of turns added to one loop of a cylinder of such a cell is reported |
| CellValidator.Search | rust/tools/cell_reference.py:730-735 | the stack-driven search terminates having seen exactly the nodes that can be reached |
| RadialOrder.Account | rust/tools/cell_reference.py:681-694 | the verdict for each way the check can fail, from the cyclic list of fins |
| RadialOrder.Verdicts | rust/tools/cell_reference.py:681-694 | which lists of fins get which verdict: crossed shells where the pairs differ and the order does not close; else by the number of fins, and of two by whether they are equal or opposite in everything |
| RadialOrder.PassesIffAlternating | rust/tools/cell_reference.py:681-685 | with one pair of different shells, any number of fins passes if and only if the number is even and the senses alternate |
| RadialOrder.SameShellPasses | rust/tools/cell_reference.py:681-685 | between two sides of one shell the check always passes |
| RadialOrder.TurnedVerdict | rust/tools/cell_reference.py:681-694 | one fin of a closed order turned round: still closed exactly if its face has one shell on both sides, and the verdict otherwise |
| RadialOrder.InconsistentIff | rust/tools/cell_reference.py:691-692 | two fins of opposite senses fail exactly where their faces turn opposite sides to two different shells |
| CellEuler.EulerCountKept | rust/tools/cell_reference.py:768-780 | with one seam used nowhere else in each merged loop of a model whose loops close, a shell's count in the cell is its count in the seamed model if and only if each dropped vertex of it lies on exactly one of its ring edges |
| CellEuler.ConversionKeepsEulerCount | rust/tools/brep_reference.py:691-694 | the same for the conversion's own cell |
| CellEuler.KeptEdgeAt | rust/tools/cell_reference.py:338-353 | with one seam used nowhere else in each merged loop of a valid model whose loops close, every vertex of a shell, also a lost seam's end, still ends a kept edge of it, and a dropped one a ring edge |
| ShellConnections.ConnectionKept | rust/tools/cell_reference.py:724-736 | with one seam used nowhere else in each merged loop, the faces of any shell have the same neighbours in the cell as in the seamed model, so the two validators' searches reach the same faces |
| VertexLinks.PinchKept | rust/tools/cell_reference.py:737-764 | under the same conditions, edges that do not hang together round a vertex do not after the seams are gone either; and conversely, unless a lost seam leads from the vertex to itself |
| VertexLinks.VertexLinksKept | rust/tools/brep_reference.py:665-687 | the same for the cell's fins round the vertex's new number |
| VertexLinks.SearchFindsPinch | rust/tools/brep_reference.py:676-687 | a search from any of the edges round a vertex misses one if and only if some set of them is apart from the rest |
| ShellsAccepted.ShellPassesKept | rust/tools/cell_reference.py:717-782 | if each dropped vertex of a shell lies on one of its ring edges, the shell's faces are connected, its kept vertices not pinched and its Euler count even and at most 2 in the cell if and only if they are in the model |
| ShellsAccepted.RegularShells | rust/tools/cell_reference.py:322-782 | the cell of a regular model with a shell, no seam of which leads from a kept vertex to itself, raises no issue, and its shells pass those checks exactly as the model's do |
| ShellsAccepted.ClosesIff | rust/tools/cell_reference.py:780-784 | a count passes exactly if it is that of a closed surface of some number of handles |
| PlaneSections.Basis | rust/tools/analytic_intersection_reference.py:114-124 | e1 is a nonzero direction of the plane, along the axis's projection unless the axis is normal to the plane, and e2 is n x e1, normal to the axis |
| PlaneSections.Coordinates | rust/tools/analytic_intersection_reference.py:114-124 | every point of the plane has coordinates in the basis |
| PlaneSections.PlaneIs | rust/tools/analytic_intersection_reference.py:153-164 | a plane's points are its own point moved across the normal |
| PlaneSections.ValueIsForm | rust/tools/analytic_intersection_reference.py:168-171 | in that basis the surface's function is a quadratic without cross term |
| PlaneSections.ValueIsDistance | rust/tools/analytic_intersection_reference.py:168-171 | the surface's function is zero exactly at distance r from the centre, or from the foot of the perpendicular on the axis |
| PlaneSections.Samples | rust/tools/analytic_intersection_reference.py:173-179 | the samples give that quadratic's coefficients, and the sixth gives 0 |
| PlaneSections.Signs | rust/tools/analytic_intersection_reference.py:192-210 | the second coefficient is positive; the first is not negative, and zero only with its linear term |
| PlaneSections.FreeSection | rust/tools/analytic_intersection_reference.py:200-222 | no line, one or two, exactly the zeros of the quadratic |
| PlaneSections.Conic | rust/tools/analytic_intersection_reference.py:192-245 | empty, point, circle, ellipse or lines: exactly the zeros, the ellipse's larger semi-axis along e1; the other branches are not reached |
| PlaneSections.PlaneQuadric | rust/tools/analytic_intersection_reference.py:153-185 | for every plane and every sphere or cylinder the section, as a set of points in space, has exactly the points of the plane where the surface's function is zero |
| PairSections.PlanePlane | rust/tools/analytic_intersection_reference.py:271-282 | same, parallel, or a line that holds exactly the common points |
| PairSections.SphereSphere | rust/tools/analytic_intersection_reference.py:285-301 | same, none, one point, or a circle: exactly the common points, for all radii and centres |

## Left out

- The working-precision layer: `mpf` rounding, tolerances (taken as 0 unless a parameter stands for one), the
  `polyroots` check of `exact_roots`, quadrature, Gauss nodes, ray casting, `_span_span`. Square roots are a function
  with the square root's law; the period of a cylinder is an arbitrary positive real.
- RootIsolation.Isolate: opposite signs at a bracket's ends and at most one root; that there is one is stated by
  RootIsolation.OneRootEach under the intermediate value property.
- ExactRoots.FindRoots: Newton's method is an arbitrary function whose result may fail; of a polished point that it
  gives inside the bracket only that is known.
- ExactRoots.Bisect: in exact arithmetic, where the source bisects in working precision.
- CurveEdits.Expected: parsing, least common denominators (any nonzero denominators are allowed) and `axis` are not
  modelled; of the knot axis it uses that knots do not decrease and that the inner spans run from start to end. The
  text protocol (`encode`, `decode`) is not modelled.
- CurveEdits.ArcsTile: says nothing for the two operations that trim each piece to its middle half, where there are
  gaps by design.
- ParitySweep.Sweep: finding crossings and the sweep's breaks is geometry on elements and is not part of it;
  ParitySweep.SweepConserves supposes that elements which cross the line at one point have equal integrals.
- Components.CountComponents: where an element stands at a height is a function given to it. The same union-find in
  `count_solids` of the chained reference is not modelled again.
- GreenAtoms.Atoms: where elements meet, the class of each of their points and the pieces' lengths are given, and an
  element has an antiderivative, a spline one for each span; one of the three integrals at a time.
- ChainMeasures.MeasuresAreBoundary: the sweeps' quadrature is replaced by given measures of the pieces; event search
  (`find_events`, `Sweep.bisect`) and `curve_pieces` are not modelled.
- ConvexPolygons.CcwConvex: corners are the same where they coincide; the source also drops one nearer than 1e-32 to
  the one before.
- ConvexPieces.PieceOp: nothing is said of points on the pieces' lines, where the source's pieces meet.
- SeamRuns.SeamMerge: pcurve ends and the quotient by the period are exact, where the source computes them in
  binary64.
- CellConversion.ToCell: indices are natural numbers; geometry travels along as values, a curve by whether it is
  closed and a surface by its kind. Enclosures are not modelled.
- Acceptance.ConversionIsAccepted: for solids and closed shells; sheets, wires and acorns are converted but followed
  into the validator only by SheetCells, for sides, shells and regions. Connectivity, vertex links and Euler counts
  are not among its issues but compared, shell by shell, by ShellsAccepted.ShellPassesKept; that earlier issues excuse
  a shell from them, and geometry, are not modelled.
- ShellsAccepted.ShellPassesKept: says nothing of the links of a dropped vertex, which the cell does not have.
- RadialOrder.Account: an edge's fins are a list; CellValidator.AroundIssues takes it from a cell.
- PlaneSections.PlaneQuadric: an ellipse's equation has its denominators cleared, and lines and directions are not
  normalised; cones and the pairs of cylinders, cones and tori are not modelled.
- `attribute_reference.py`, the comparison drivers and generators, and the kernel itself.
