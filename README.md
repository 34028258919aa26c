# FeeLLGood electrostatic solver and finite-element core, in Dafny

FeeLLGood is a finite-element micromagnetics code. This project models the
parts of its core where the logic is discrete or algebraically exact, with
every `double` written as a Dafny `real`:

- **`ElectrostatSolver`, `Electrostat` and `Dirichlet`** (`electrostatSolver.h`) cover the electrostatic side problem. The steps are:
  - the local 4×4 conductance matrix of a tetrahedron and the 3-entry load of a face;
  - assembly into a triplet list and a dense load vector;
  - the mean boundary potential;
  - the Dirichlet penalty edits made by `solve` through single-iterator `erase(remove_if(...))`;
  - `setFromTriplets`, which sums duplicate coordinates;
  - the row maxima and the row scaling;
  - the BiCGSTAB call and its convergence flag;
  - the gradient of the potential and the field `Hm` at every quadrature point;
  - the `extraField` accumulation of `Hm` into a field table.
- **`Tetra`** (`tetra.cpp`) covers the tetrahedron:
  - the Jacobian and its determinant, `init`, `calc_vol` and `getNod`;
  - the accumulation pattern of `integrales` into `AE`, meaning the exchange blocks and the gyroscopic lumping.
- **`Pt`** (`unit-tests/pt3D.h`) covers three-vectors: sums and scalings, scalar, vector, direct and triple products, `sign`, `sq`, the unit vector of an index, `maxLength`, `isOrthogonal`, `det` and the in-place 3×3 `inverse`.
- **`Nodes`** (`node.h`) covers node state: the choice of the initial axis in `setBasis` and its Gram-Schmidt step, `evolution`, `make_evol`, the getters and the two setters.
- **`LinAlgebra`** (`linear_algebra.cpp`) covers the split of the tetrahedra into near-equal contiguous blocks, one per thread, and the update of every node with the running maximum of vp² + vq².
- **`Element`** (`element.h`) covers the index bookkeeping of an element.
- **`Facette`** (`facette.h`) covers the face constructors and the lexicographic order `less_than` on face index triples.

The modelling choices are these:

- Code that changes state stays imperative. These become classes with `modifies` clauses:
  - `Node`, the element, `Tet`, `LinAlgebra` and the solver;
  - the local matrices (`array2<real>`);
  - the load and solution vectors (`array<real>`).
- Each method is tied to a specification function, and the properties the source promises are proved about that function.
- A computation that can go wrong in floating point, or whose C++ behaviour is undefined, returns an `Outcome`:
  - `NotFinite` stands for a division by zero of the solver, whose IEEE result is not finite.
  - `Undefined` stands for `erase(end())`.
  - `Ok` holds the value.
- BiCGSTAB is a caller-supplied function. It maps a matrix, a right-hand side, a tolerance and an iteration cap to a solution and an iteration count.
- The sparse matrix is a map from (row, col) to value.

Where the code and its documentation differ, the model follows the code:

- `solve` calls `erase` with one iterator. Each call therefore shortens the list by exactly one slot, whatever the number D of matches, and the contents change more than that. With libstdc++'s `remove_if`, which leaves the old values behind the K kept triplets, the result is the kept triplets in order followed by the old slots from position K + 1 on, counting from 0. As a result:
  - every match among old positions 0 to K disappears;
  - a match further back survives and moves forward (`Dirichlet.EraseRemoveIfKeepsLaterMatch`);
  - a non-matching triplet among the last D − 1 old slots appears twice, once in the kept prefix and once in the tail (`Dirichlet.EraseRemoveIfDuplicatesTail`), so `setFromTriplets` (electrostatSolver.h:340) adds its value twice.

  On the assembled Kw, the first erase of a node step thus drops the diagonal triplets near the front and repeats the off-diagonal ones among the last D − 1 assembled triplets, D being the number of diagonal triplets.
- The predicate of the first `erase` ignores the node index, so it targets any diagonal triplet.
- The row scaling has no guard against a zero row maximum.
- `Xw` is never handed to BiCGSTAB.

## Model

| member | source | states |
|---|---|---|
| Electrostat.TetIntegrales | electrostatSolver.h:44-64 | AE[i][j] grows by the conduction sum σ·(∇a_i·∇a_j)·w over the quadrature points |
| Electrostat.AddConductRow | electrostatSolver.h:49-62 | for one quadrature point, row ie of AE grows by σ·(∇a_ie·∇a_je)·w in every column and every other row is unchanged |
| Electrostat.ConductMatrixSymmetric | electrostatSolver.h:44-64 | starting from the zero matrix (the caller's initialisation), the tetrahedron's conductance matrix is symmetric |
| Electrostat.FacIntegrales | electrostatSolver.h:67-74 | BE[ie] decreases by the face load Σ a[ie][q]·pot_val·w[q] |
| Electrostat.FaceLoadZeroPotential | electrostatSolver.h:67-74 | with pot_val = 0 the face load is zero, so BE is unchanged |
| Electrostat.AssemblingMat | electrostatSolver.h:21-32 | K becomes old K followed by the non-zero local entries in row-major order as (ind[ie], ind[je], Ke[ie][je]) |
| Electrostat.AssembleRow | electrostatSolver.h:25-30 | K grows by the non-zero entries of row ie of Ke, in column order, as (ind[ie], ind[je], Ke[ie][je]) |
| Electrostat.PushedAreNonZeroEntries | electrostatSolver.h:21-32 | a triplet is appended iff it is (ind[ie], ind[je], Ke[ie][je]) for some ie, je with a non-zero value |
| Electrostat.RowMajorEntries | electrostatSolver.h:21-32 | the row-major list has 4·k entries and entry 4·ie+je is (ind[ie], ind[je], Ke[ie][je]) |
| Electrostat.NonZeroMembers | electrostatSolver.h:28-29 | a triplet survives the zero filter iff it is in the list and its value is non-zero |
| Electrostat.AssemblingVect | electrostatSolver.h:35-39 | L becomes old L with Le[ie] added at fac.ind[ie] for every ie |
| Electrostat.AddAtUntouched | electrostatSolver.h:35-39 | an entry not indexed by the face is unchanged |
| Electrostat.AddAtSum | electrostatSolver.h:35-39 | the sum of L grows by the sum of Le, even with repeated indices |
| Electrostat.MeanPotential | electrostatSolver.h:271-276 | the loop computes the mean of the boundary values; no condition gives NotFinite (0/0) |
| Electrostat.MeanBetween | electrostatSolver.h:271-276 | with at least one condition, the mean is defined and lies between bounds of all the values |
| Electrostat.MeanOfEqual | electrostatSolver.h:271-276 | conditions that all hold the same value have that value as mean |
| Electrostat.PrepareData | electrostatSolver.h:259-285 | Kw grows by the triplets of every tetrahedron, pot_val is the mean, and Lw gets every face load when the mean is finite |
| Electrostat.PushTet | electrostatSolver.h:264-269 | for one tetrahedron, with K starting at zero, Kw grows by exactly the non-zero entries of its conductance matrix in row-major order |
| Electrostat.PushFac | electrostatSolver.h:279-283 | for one face, Lw grows at the face's indices by its load at pot_val, and every other entry is unchanged |
| Electrostat.PushTets | electrostatSolver.h:263-269 | Kw grows by the local triplets of every tetrahedron in order |
| Electrostat.PushFacs | electrostatSolver.h:278-284 | Lw becomes the sum of the face loads added to old Lw |
| Electrostat.FacesLoadZero | electrostatSolver.h:278-284 | with pot_val = 0 the face loop leaves Lw unchanged |
| Dirichlet.EraseRemoveIf | electrostatSolver.h:321-326 | the single-iterator erase is defined iff some triplet matches, and is Undefined otherwise; when defined, Kw shrinks by one, begins with the non-matching triplets in order, and keeps the old tail (libstdc++'s leftover slots) behind them |
| Dirichlet.EraseRemoveIfSingle | electrostatSolver.h:321-326 | with exactly one matching triplet, the erase removes it and keeps the rest in order |
| Dirichlet.EraseRemoveIfKeepsLaterMatch | electrostatSolver.h:321-322 | the diagonal predicate ignores i, and a second matching triplet is kept and moved forward |
| Dirichlet.EraseRemoveIfDuplicatesTail | electrostatSolver.h:321-322 | with two diagonal triplets ahead of an off-diagonal one, the erase removes both diagonal triplets and leaves the off-diagonal one twice |
| Dirichlet.KeptMembers | electrostatSolver.h:321-326 | a triplet is among the kept ones iff it is in Kw and does not match |
| Dirichlet.NodeStep | electrostatSolver.h:319-331 | a node step is defined iff both erases find a match, and is Undefined otherwise; when defined, Kw shrinks by one and ends with (i, i, 1e9), Lw[i] = V·1e9 and Xw[i] = V, and the other entries are unchanged |
| Dirichlet.RunEffect | electrostatSolver.h:299-335 | after a run of steps Kw is shorter by the step count; Xw[j] holds the potential of the last step on j and Lw[j] that value times 1e9, and untouched nodes keep their values |
| Dirichlet.RunIgnoresXw | electrostatSolver.h:299-335 | whether the Dirichlet run is defined, and the Kw and Lw it leaves, do not depend on the initial content of Xw |
| Dirichlet.RunConcat | electrostatSolver.h:299-335 | running two step lists in a row is running their concatenation |
| Dirichlet.FindSurface | electrostatSolver.h:306-308 | find_if returns the position of the first surface with the name, or the end when no surface has it |
| Dirichlet.UnknownSurfaceNoStep | electrostatSolver.h:306-310 | an unknown surface name gives no step, so Kw, Lw and Xw are untouched |
| Dirichlet.TriangleSteps | electrostatSolver.h:316-331 | a triangle constrains its three summits in order, each at the surface potential |
| Dirichlet.ConstrainNode | electrostatSolver.h:319-331 | the in-place edits of one node equal the node step on the old state |
| Dirichlet.ConstrainTriangle | electrostatSolver.h:314-333 | the edits of one triangle equal the run of its three steps |
| Dirichlet.ConstrainSurface | electrostatSolver.h:314-333 | the edits of one surface equal the run of the steps of all its triangles |
| Dirichlet.ConstrainNext | electrostatSolver.h:314-331 | the edits of triangle t continue the run over the first t triangles with its three steps, and an earlier failure is kept |
| Dirichlet.ApplyCondition | electrostatSolver.h:301-334 | one boundary condition extends the run by its own steps |
| Dirichlet.ApplyConditions | electrostatSolver.h:299-335 | the whole boundary loop equals the run of all steps of all conditions |
| Dirichlet.AllStepsIn | electrostatSolver.h:299-335 | every step names a node below nod when the surfaces' triangles do |
| ElectrostatSolver.SetFromTripletsSums | electrostatSolver.h:340-341 | (r, c) is stored iff some triplet is there, and it holds the sum of their values |
| ElectrostatSolver.SetFromTripletsIn | electrostatSolver.h:340-341 | triplets in range give stored entries in range |
| ElectrostatSolver.TetsTripletsIn | electrostatSolver.h:21-32 | triplets of tetrahedra whose indices are below nod are in range |
| ElectrostatSolver.RunKeepsIn | electrostatSolver.h:319-331 | the Dirichlet edits keep every triplet in range |
| ElectrostatSolver.MaxRow | electrostatSolver.h:342-350 | maxRow[i] is the row maximum of row i: at least 0, at least every magnitude in row i, and attained or 0 |
| ElectrostatSolver.RowMaxUnique | electrostatSolver.h:342-350 | the row maximum is unique, whatever order the stored entries are visited in |
| ElectrostatSolver.ScaleRows | electrostatSolver.h:352-358 | with every maxRow[i] non-zero, row i and Lw[i] are divided by maxRow[i]; a zero maximum gives NotFinite |
| ElectrostatSolver.Scaled | electrostatSolver.h:352-358 | scaling keeps the stored coordinates |
| ElectrostatSolver.ScaledRowsBounded | electrostatSolver.h:342-358 | after scaling by the row maxima, every entry has magnitude at most 1 and every row holds one of magnitude 1 |
| ElectrostatSolver.ScalingKeepsSolutions | electrostatSolver.h:352-358 | X solves equation i of the scaled system iff it solves equation i of the original one |
| ElectrostatSolver.ScaleRowDot | electrostatSolver.h:352-358 | a scaled row times X is the original product divided by the row maximum |
| ElectrostatSolver.ConstrainedSystem | electrostatSolver.h:291-335 | Kw, Lw and Xw after assembly and the Dirichlet loop are those of the specification Constrained |
| ElectrostatSolver.PreconditionedIgnoresXw | electrostatSolver.h:289-358 | the scaled matrix and right-hand side handed to BiCGSTAB are the same whatever the uninitialised content of Xw |
| ElectrostatSolver.ScaleSystem | electrostatSolver.h:340-358 | the sparse matrix and Lw after setFromTriplets, maxRow and scaling are those of ScaledSystem |
| ElectrostatSolver.Solver.Solve | electrostatSolver.h:289-375 | solve returns whether BiCGSTAB on the scaled system used fewer than MAXITER iterations, and on success V is its solution |
| ElectrostatSolver.Solver.constructor | electrostatSolver.h:84-138 | whenever BiCGSTAB ran, V is its solution of the scaled system; on convergence gradV and Hm are the gradients and the Hm of every tetrahedron, in order; otherwise status records the failure |
| ElectrostatSolver.Solver.CalcGradV | electrostatSolver.h:141-155 | gradV[q] = Σ_i V[ind[i]]·(dadx, dady, dadz)(i, q) at every quadrature point |
| ElectrostatSolver.GradAt | electrostatSolver.h:145-153 | the gradient at one quadrature point is Σ_i V[ind[i]]·(dadx, dady, dadz)(i, q) |
| ElectrostatSolver.UniformPotentialNoGradient | electrostatSolver.h:141-155 | a uniform potential has zero gradient when the shape gradients sum to zero |
| ElectrostatSolver.GradSumLinear | electrostatSolver.h:141-155 | the gradient is linear in the potential |
| ElectrostatSolver.Solver.CalcHm | electrostatSolver.h:158-166 | Hm[q] = -σ·(gradV[q] × p_g[q]), orthogonal to gradV[q] and to p_g[q] |
| ElectrostatSolver.HmOrthogonal | electrostatSolver.h:158-166 | Hm at every point is orthogonal to the gradient and to the Gauss point |
| ElectrostatSolver.Solver.ComputeFields | electrostatSolver.h:120-130 | gradV and Hm grow by one table per tetrahedron, in mesh order |
| ElectrostatSolver.Solver.ExtraField | electrostatSolver.h:177-180 | H[r][q] grows by coordinate r of Hm[idx][q], and nothing else changes |
| Tetra.Tet.Jacobian | tetra.cpp:243-254 | column c of J is p_{c+1} - p_0 and the result is det(J) |
| Tetra.DetIsSixVolumes | tetra.cpp:243-274 | the Jacobian determinant is six times the signed volume |
| Tetra.Tet.GetNod | tetra.cpp:232-241 | column i of nod holds the coordinates of summit i, and nothing else changes |
| Tetra.Tet.Init | tetra.cpp:13-39 | the error path is taken iff abs(detJ) < epsilon and changes nothing; otherwise every point gets the same gradients dadu·J⁻¹ and weight detJ·pds[j] |
| Tetra.Tet.FillGradients | tetra.cpp:31-38 | every quadrature point gets identical gradients and weight detJ·pds[j] |
| Tetra.Tet.InverseGradients | tetra.cpp:29-30 | after the inversion every shape gradient is the row of dadu times the inverse of the original Jacobian |
| Tetra.ShapeGradientChainRule | tetra.cpp:30-31 | the gradient computed through the inverse Jacobian, multiplied back by J, gives dadu |
| Tetra.Gradients | tetra.cpp:30-31 | every shape gradient is the row of dadu times the inverse |
| Tetra.Tet.CalcVol | tetra.cpp:257-274 | vol = abs(signed volume) ≥ 0; ind[2] and ind[3] are swapped iff the signed volume is negative; ind[0] and ind[1] never change, and the new order has volume vol |
| Tetra.SwapNegatesVolume | tetra.cpp:260-271 | swapping the last two summits negates the signed volume |
| Tetra.Tet.Integrales | tetra.cpp:41-230 | AE grows by the exchange and lumping sums over all quadrature points |
| Tetra.AddLumping | tetra.cpp:210-219 | at one point, the three rows of summit i grow by their lumping terms and every other entry of AE is unchanged |
| Tetra.AddExchange | tetra.cpp:221-227 | at one point, the entries (aN+i, aN+j) of the three diagonal blocks grow by the exchange term of (i, j) and every other entry of AE is unchanged |
| Tetra.SumExchangeSymmetric | tetra.cpp:221-227 | the exchange contribution is symmetric |
| Tetra.SumExchangeBlocks | tetra.cpp:221-227 | exchange touches only the diagonal blocks (aN+i, aN+j), identically in all three |
| Tetra.SumLumpingSameSummit | tetra.cpp:210-219 | lumping touches only positions of one summit, and within one block only the diagonal |
| Tetra.SumLumpingAntisymmetric | tetra.cpp:210-219 | off-block lumping entries satisfy (aN+i, bN+i) = -(bN+i, aN+i) |
| Tetra.SetColumn | tetra.cpp:33-38 | column j takes the given values and the other columns are unchanged |
| Tetra.LumpingRowsOfSummit | tetra.cpp:210-219 | the three rows of a summit hold alfa·a_i·w on the diagonal and ±u components of a_i·w elsewhere |
| Pt.Sign | unit-tests/pt3D.h:38-45 | sign is 1 iff x > 0 and -1 otherwise, including at 0 |
| Pt.SignTimesAbs | unit-tests/pt3D.h:38-45 | sign(x)·abs(x) = x |
| Pt.Sq | unit-tests/pt3D.h:49 | squares are non-negative |
| Pt.FromIndex | unit-tests/pt3D.h:81-84 | pt3D(idx) has 1 at idx and 0 elsewhere; IDX_UNDEF gives the zero vector |
| Pt.FromIndexIsUnit | unit-tests/pt3D.h:81-84 | the unit vector of an index has norm 1 |
| Pt.AddCommutativeMonoid | unit-tests/pt3D.h:176-181 | + is commutative and associative, and the zero vector is its neutral element |
| Pt.AddRegroup | unit-tests/pt3D.h:176-181 | (a + b) + (c + d) = (a + c) + (b + d) |
| Pt.Sub | unit-tests/pt3D.h:186-191 | subtraction is undone by addition |
| Pt.ScaleLeftAdd | unit-tests/pt3D.h:205-208 | c·(a + b) = c·a + c·b |
| Pt.ScaleLeftSum | unit-tests/pt3D.h:205-208 | (a + b)·p = a·p + b·p |
| Pt.PScalScaleLeft | unit-tests/pt3D.h:205-208 | (c·a)·b = c·(a·b) |
| Pt.ScaleRight | unit-tests/pt3D.h:213-216 | right scaling equals left scaling |
| Pt.Div | unit-tests/pt3D.h:221-224 | division by a non-zero b is undone by scaling by b |
| Pt.PDirect | unit-tests/pt3D.h:238-241 | the coordinates of the direct product sum to the scalar product |
| Pt.DirectCubeIsDirectProduct | unit-tests/pt3D.h:246-249 | directCube(a) = pDirect(a, pDirect(a, a)) |
| Pt.IsOrthogonal | unit-tests/pt3D.h:262-268 | isOrthogonal holds iff the magnitudes of a·b, b·c and c·a are all below precision |
| Pt.IsOrthogonalProperties | unit-tests/pt3D.h:262-268 | an orthogonal triple passes the test, and the test is symmetric in the order of its arguments |
| Pt.MaxLength | unit-tests/pt3D.h:155 | maxLength is the largest signed coordinate |
| Pt.Inverse | unit-tests/pt3D.h:281-302 | M is replaced by its cofactors over detM; with detM = det(M) that is a two-sided inverse |
| Pt.InverseIsInverse | unit-tests/pt3D.h:281-302 | the cofactor matrix over det(M) is a left and right inverse of M |
| Pt.PScalSquare | unit-tests/pt3D.h:230-233 | a·a is the sum of the squared coordinates, hence non-negative |
| Pt.PScalAddLeft | unit-tests/pt3D.h:230-233 | the scalar product is additive on the left |
| Pt.Det | unit-tests/pt3D.h:273-278 | det(M) is the triple product of M's rows |
| Pt.Cross | unit-tests/pt3D.h:196-200 | a·(a×b) = 0 and b·(a×b) = 0 |
| Pt.CrossAntiCommutative | unit-tests/pt3D.h:196-200 | a×b = -(b×a) and a×a = 0 |
| Pt.TripleCyclic | unit-tests/pt3D.h:254 | the triple product is invariant under cyclic permutation |
| Pt.TripleSwap | unit-tests/pt3D.h:254 | exchanging two arguments negates the triple product |
| Nodes.InitialAxis | node.h:57-73 | setBasis starts from an axis whose coordinate of u0 is smallest in magnitude, ties going to Z whenever abs(z) is a minimum |
| Nodes.Node.SetBasis | node.h:55-98 | only ep and eq change, and they become the basis built from u0 |
| Nodes.GramSchmidtOrthogonal | node.h:76 | ep - (ep·u0)u0 is orthogonal to u0 when u0·u0 = 1 |
| Nodes.BasisOrthogonalToU0 | node.h:55-98 | both new basis vectors are orthogonal to a unit u0, with or without the paranoid step |
| Nodes.Node.Evolution | node.h:103-109 | u0, v0, phi0 and phiv0 take the end-of-step values, and nothing else changes |
| Nodes.EvolvedIdempotent | node.h:103-109 | evolution twice is evolution once, and it changes only the four start-of-step fields |
| Nodes.Node.MakeEvol | node.h:118-124 | only v and u change: v = vp·ep + vq·eq and u is u0 + dt·v, normalised |
| Nodes.EvolveSpeedTangent | node.h:118-124 | the new speed is orthogonal to u0 when ep and eq are; nothing but u and v changes |
| Nodes.SetPhi | node.h:171 | only phi changes |
| Nodes.SetPhiv | node.h:174 | only phiv changes |
| LinAlgebra.LinAlgebra.PrepareItTet | linear_algebra.cpp:20-33 | block i is [BlockStart(i), BlockStart(i+1)) and the last block ends at the end of the vector |
| LinAlgebra.Blocks | linear_algebra.cpp:22-32 | the nb (begin, end) pairs are [BlockStart(i), BlockStart(i+1)) laid end to end, and the last ends at n |
| LinAlgebra.BlockStartClosedForm | linear_algebra.cpp:22-30 | block i starts at i·(n/NbTH) + min(i, n mod NbTH) |
| LinAlgebra.BlockSize | linear_algebra.cpp:22-30 | block i has n/NbTH elements, plus one when i < n mod NbTH |
| LinAlgebra.BlocksCover | linear_algebra.cpp:24-32 | block 0 starts at the beginning and the last block ends at n |
| LinAlgebra.BlockSizesBalanced | linear_algebra.cpp:22-29 | any two block sizes differ by at most one |
| LinAlgebra.LinAlgebra.UpdateNodes | linear_algebra.cpp:4-18 | node i gets make_evol(X[i], X[NOD+i], dt), and v_max is sqrt of the largest vp² + vq² |
| LinAlgebra.MaxSpeed2Bounds | linear_algebra.cpp:6-13 | the running maximum is at least 0 and at least every X[i]² + X[NOD+i]² |
| LinAlgebra.MaxSpeed2Attained | linear_algebra.cpp:6-13 | the running maximum is 0 or one of these values |
| Element.Element.constructor | element.h:16-19 | ind has length N and is all zero, and N, NPI and the node list are the given ones |
| Element.Element.SetInd | element.h:31-34 | ind becomes the given list |
| Element.Element.ZeroBasing | element.h:37-44 | every index is decremented by exactly one and the length is kept |
| Element.Element.IndicesToZero | element.h:57-58 | every index becomes 0 and the length is kept |
| Facette.NewFac | facette.h:42 | Fac() sets reg = 0 |
| Facette.NewFacWith | facette.h:44 | Fac(r, i0, i1, i2) sets reg = r and ind = [i0, i1, i2] |
| Facette.LessThanIsLex | facette.h:77-86 | less_than is the lexicographic order on (ind[0], ind[1], ind[2]) |
| Facette.LessThanIrreflexive | facette.h:77-86 | less_than is irreflexive |
| Facette.LessThanAsymmetric | facette.h:77-86 | f1 < f2 implies not f2 < f1 |
| Facette.LessThanTransitive | facette.h:77-86 | less_than is transitive |
| Facette.LessThanTrichotomy | facette.h:77-86 | for distinct triples exactly one direction holds, and for equal triples neither |
| Facette.LessThanIgnoresOtherFields | facette.h:77-86 | less_than depends only on ind, not on reg or the other fields |
| Facette.LexTotal | facette.h:77-86 | the lexicographic order relates any two distinct triples |

## Left out

- Floating point: doubles are reals. The two divisions of the solver that can meet a zero are the `NotFinite` outcome: the mean over no condition (electrostatSolver.h:276) and the row scaling by a zero row maximum (electrostatSolver.h:354-357). The divisions of `Pt` are not; see `Pt.Div` and `Pt.Inverse`.
- `Pt.Div`: requires b != 0. A division by zero, which gives infinite or NaN coordinates in the source, is excluded rather than modelled.
- `Pt.Inverse`: requires detM != 0, the condition the source's own comment puts on its callers ("detM must be non zero", unit-tests/pt3D.h:280).
- Process termination: `exit(1)` in the constructor and the error throw of `Tet::init` are modelled as a status or a `false` result.
- Undefined behaviour: `erase(end())` when no triplet matches is the `Undefined` outcome, and the run stops there.
- `Electrostat.PrepareData`: without boundary conditions the model stops with `NotFinite` at the mean and leaves Lw untouched. The source instead adds NaN loads to Lw, divides them through in the row scaling (electrostatSolver.h:352-358) and hands them to BiCGSTAB (electrostatSolver.h:363-374).
- `Dirichlet.EraseRemoveIf`: the slots behind the iterator returned by `remove_if` keep their old values, as libstdc++ leaves them. The C++ standard leaves their contents unspecified, and they decide what the second `erase` of a step finds and which triplet it removes.
- Eigen: the BiCGSTAB internals are left out; the solver is a caller-supplied function returning (solution, iterations). The sparse storage and iteration order of the library are left out too; `MaxRow` picks the stored keys in an arbitrary order, and `RowMaxUnique` shows that the order does not matter.
- `Xw`: its uninitialised content is the parameter Xw0. It is never given to BiCGSTAB, and `ElectrostatSolver.PreconditionedIgnoresXw` shows that the scaled system does not depend on it.
- `sqrt` and `normalize` are caller-supplied functions (`sqrt(v2max)`, `u.normalize()`, the normalisations in `setBasis`). The rotation in `setBasis` enters as the values cos r and sin r.
- `rho`, `theta`, the spherical constructor, `dist` and the setters of pt3D are transcendental or trivial and are not part of this model.
- Physical constants from headers that are not part of this model: `ksi`, `D0` and `pf` (electrostatSolver.h:95-97).
- `extraCoeffs_BE` (electrostatSolver.h:182-205): a torque formula with no contract beyond its own expression.
- The BE right-hand-side terms of `Tet::integrales` (tetra.cpp:174-207), the STAT histogram and the ORD2 branch: long float expressions. Only the AE accumulation is modelled.
- The `R = 0` term of `Tet::integrales` is folded into the coefficient.
- `Tetra.Tet.Integrales`: requires Jm != 0, because the source divides by Jm and a zero would give an infinite coefficient.
- `Tetra.Tet.Init`: requires epsilon > 0. The source's epsilon is a positive constant from a header that is not part of this model.
- `ElectrostatSolver.Solver.ExtraField`: it is a method on the solver, not the closure stored on each tetrahedron by `prepareExtras`. Lambda captures and their lifetimes are not modelled.
- `tetra.h`, `mesh.h`, `config.h`, `tiny.h`, `vecND.h` and `spinTransferTorque.h` are not part of this model. Tetrahedra and faces are records holding their sequences (`ind`, `weight`, gradients, Gauss points). `Facette::a`, the shape values of a face, is the parameter `ha`, and `dadu`, `pds` and `NPI` of `Tetra` are parameters.
- Getters: `getN`, `getNPI` and `getNode` of the element, and the `get_*` getters of the node, return a field and carry no contract beyond their bodies.
- I/O: `msh.savesol`, `savesol.cc`, `infos()` and the verbose prints.
- `prepareElements` (parallel execution) and `base_projection` (random numbers, and a `setBasis` overload node.h does not define).
- `unit-tests/ut_energy.cpp`, `ci-tests/benchmark.py` and `full_test.py`: tests and harnesses around code that is not part of this model.
- `LinAlgebra.LinAlgebra.UpdateNodes`: states each node's final state, not the order of the calls. The nodes are distinct objects, so the order is not observable.
