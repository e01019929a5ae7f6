# Capacitated p-center LP generator, modelled in Dafny

The script `LP_File_Creation/Capacitated_PCenter_CODE.py` writes a capacitated
p-center facility-location problem as a mixed-integer program in CPLEX LP
format. Its inputs are a square cost matrix `Cij`, a demand vector `Ai` and a
capacity vector `Qi`. Its variables are the assignment variables `x<client>_<site>`,
the siting variables `y<site>` and the objective variable `W`. The document
has these parts, in order:

- `Minimize obj: W`.
- `Subject To` with five labelled blocks: assignment, facility count,
  opening, capacity and max-cost.
- `Bounds` with `0 <= v <= 1` for every `x` and `y`.
- `Binaries` listing every `x` and `y`.
- `End`.

The model keeps the document in structured form: a constraint is a label
number, a list of `(coefficient, variable)` terms, a relation and a
right-hand side. Each generator is a pure function of explicit parameters:
`rows`, `cols` (the shape of `Cij`), `Cij`, `Ai`, `Qi`, and the label counter
value before its first row. It returns its block and the counter after it.

- `lp.dfy` (`Lp`): variables, terms, constraints, bounds, the document. It
  also says what it means for a valuation to satisfy a constraint.
- `blocks.dfy` (`Blocks`): the five constraint generators and the variables
  each one uses.
- `declarations.dfy` (`Declarations`): the two bound generators and the two
  binary-declaration generators.
- `meaning.dfy` (`Meaning`): the five conditions of the formulation, written
  as plain sums. Each block is proved satisfied exactly when its condition
  holds.
- `assembly.dfy` (`Assembly`): the document in its fixed section order.
  `AsWritten` uses the label offsets the script hard-codes. `Emit` threads
  one counter through the generators. This file also holds the lemmas on
  labels, declared variables and the shipped instance.

Conventions the model fixes:

- In the assignment, opening and max-cost blocks, the first index of `x`
  is a client (1..cols) and the second a site (1..rows). The capacity block
  runs the first index over 1..rows and the second over 1..len Qi. The
  bound and binary sections run the first over 1..rows and the second over
  1..cols. These readings coincide only when rows = cols = len Qi, which
  `Assembly.DeclaredCoversUsed` makes precise. Wherever an `x` shares a row
  with a `y`, its second index equals the index of that `y`.
- In the opening block the script writes `x<j>_<i>` with `y<i>`. The site
  is therefore the outer loop variable.
- The max-cost block gives `x<a>_<s>` the coefficient `Cij[s-1][a-1]`. This
  indexes the matrix site-first. It equals `Cij[a-1][s-1]` when the matrix is
  symmetric, as the shipped one is.

In these places the model keeps the script's behaviour rather than a
generalised formulation:

- The facility-count right-hand side is the literal 1 (`Blocks.P`), not a
  parameter.
- The max-cost coefficients are read site-first, as above.
- No validation of the instance happens.
- The hard-coded labels are modelled as written (`AsWritten`), next to the
  threaded counter (`Emit`).

## Model

| member | source | states |
|---|---|---|
| Blocks.Assignment | LP_File_Creation/Capacitated_PCenter_CODE.py:44-53 | exactly `cols` rows, labelled counter+1..counter+cols; row k sums `x<k+1>_<b>` over b = 1..rows, each with coefficient 1, relation `=`, right-hand side 1 |
| Blocks.AssignmentUses | LP_File_Creation/Capacitated_PCenter_CODE.py:47-51 | the assignment rows mention exactly the variables `x<a>_<b>` with a <= cols and b <= rows |
| Meaning.AssignmentMeaning | LP_File_Creation/Capacitated_PCenter_CODE.py:41-53 | a valuation satisfies the assignment rows iff every client's assignment values over all sites sum to 1 |
| Blocks.FacilityCount | LP_File_Creation/Capacitated_PCenter_CODE.py:57-64 | exactly one row, labelled with the next counter value: `y1 + ... + y<rows> <= 1`, each `y` with coefficient 1 |
| Blocks.FacilityCountUses | LP_File_Creation/Capacitated_PCenter_CODE.py:59-63 | the facility-count row mentions exactly `y1..y<rows>` |
| Meaning.FacilityCountMeaning | LP_File_Creation/Capacitated_PCenter_CODE.py:55-64 | the row holds iff the opened-site values sum to at most P = 1 |
| Blocks.Opening | LP_File_Creation/Capacitated_PCenter_CODE.py:67-74 | exactly rows*cols rows with consecutive labels; each is `-1 x<a>_<s> + 1 y<s> >= 0` with a <= cols and s <= rows, so the site of `x` is the index of `y` |
| Blocks.OpeningAt | LP_File_Creation/Capacitated_PCenter_CODE.py:70-73 | rows are in row-major order: position i*cols+j holds `-x<j+1>_<i+1> + y<i+1>` |
| Blocks.OpeningUses | LP_File_Creation/Capacitated_PCenter_CODE.py:70-73 | the opening rows mention exactly `x<a>_<s>` for a <= cols and s <= rows, plus `y1..y<rows>` when cols > 0 |
| Meaning.OpeningSound | LP_File_Creation/Capacitated_PCenter_CODE.py:66-74 | when all opening rows hold, every `x<a>_<s>` is at most `y<s>`: no client is served by a closed site |
| Meaning.OpeningComplete | LP_File_Creation/Capacitated_PCenter_CODE.py:66-74 | conversely, when every `x<a>_<s>` is at most `y<s>`, all opening rows hold |
| Blocks.Capacity | LP_File_Creation/Capacitated_PCenter_CODE.py:77-86 | one row per entry of `Qi` with consecutive labels; row s is `-Qi[s] y<s+1> + sum over i < rows of Ai[i] x<i+1>_<s+1> <= 0` |
| Blocks.CapacityVarAt | LP_File_Creation/Capacitated_PCenter_CODE.py:82-84 | term 0 of the capacity row of site s+1 is `y<s+1>`; term t > 0 is `x<t>_<s+1>` |
| Blocks.CapacityUses | LP_File_Creation/Capacitated_PCenter_CODE.py:80-84 | the capacity rows mention exactly `y1..y<len Qi>` and `x<a>_<s>` for a <= rows and s <= len Qi |
| Meaning.CapacityMeaning | LP_File_Creation/Capacitated_PCenter_CODE.py:76-86 | the capacity rows hold iff for every site the routed demand is at most its capacity times its `y` value |
| Blocks.MaxCost | LP_File_Creation/Capacitated_PCenter_CODE.py:91-100 | exactly `cols` rows with consecutive labels; row a is `sum over s < rows of Cij[s][a] x<a+1>_<s+1> - W <= 0` |
| Blocks.MaxCostVarAt | LP_File_Creation/Capacitated_PCenter_CODE.py:97-99 | term t < rows of the max-cost row of client a+1 is `x<a+1>_<t+1>`, and the last term is `W` |
| Blocks.MaxCostUses | LP_File_Creation/Capacitated_PCenter_CODE.py:94-99 | the max-cost rows mention exactly `x<a>_<s>` for a <= cols and s <= rows, plus `W` when cols > 0 |
| Blocks.MaxCostCoefficient | LP_File_Creation/Capacitated_PCenter_CODE.py:98 | the coefficient on `x<a>_<s>` is `Cij[s-1][a-1]`; it equals `Cij[a-1][s-1]` iff the matrix is symmetric at that entry |
| Meaning.MaxCostMeaning | LP_File_Creation/Capacitated_PCenter_CODE.py:88-100 | the max-cost rows hold iff `W` is at least every client's weighted assignment cost |
| Declarations.XBounds | LP_File_Creation/Capacitated_PCenter_CODE.py:103-110 | rows*cols bound lines, each the interval [0, 1] |
| Declarations.YBounds | LP_File_Creation/Capacitated_PCenter_CODE.py:112-116 | line i bounds `y<i+1>` to [0, 1], for i < rows |
| Declarations.XBinaries | LP_File_Creation/Capacitated_PCenter_CODE.py:121-128 | rows*cols names are declared |
| Declarations.XBinariesAt | LP_File_Creation/Capacitated_PCenter_CODE.py:123-126 | the `x` names are in row-major order: position i*cols+j is `x<i+1>_<j+1>` |
| Declarations.XBinariesExactlyOnce | LP_File_Creation/Capacitated_PCenter_CODE.py:121-128 | every `x<i>_<j>` with i <= rows, j <= cols is declared, nothing else is, and none twice |
| Declarations.YBinaries | LP_File_Creation/Capacitated_PCenter_CODE.py:130-135 | name i is `y<i+1>`, for i < rows |
| Declarations.XBoundsMatchBinaries | LP_File_Creation/Capacitated_PCenter_CODE.py:103-128 | the `x` bound lines constrain exactly the declared `x` names, in the same order |
| Declarations.BoundsMatchBinaries | LP_File_Creation/Capacitated_PCenter_CODE.py:103-135 | Bounds and Binaries cover the same variables in the same order, all bounds are [0, 1], no variable is declared twice, and the declared set is the x grid plus `y1..y<rows>` |
| Declarations.BoundsSayBinary | LP_File_Creation/Capacitated_PCenter_CODE.py:102-135 | for integer values, all bound lines hold iff every declared variable is 0 or 1 |
| Assembly.Threaded | LP_File_Creation/Capacitated_PCenter_CODE.py:165-170 | feeding each block's final counter to the next gives starting counters 0, cols, cols+1, cols+1+rows*cols and cols+1+rows*cols+len Qi |
| Assembly.Assemble | LP_File_Creation/Capacitated_PCenter_CODE.py:160-182 | for any starting counters, the document minimises `W`, has cols+1+rows*cols+len Qi+cols constraints, and has rows*cols+rows bounds and rows*cols+rows binaries; where each block's rows and each declaration sit is stated by the `...RowAt` and `...DeclarationsAt` lemmas |
| Assembly.AsWritten | LP_File_Creation/Capacitated_PCenter_CODE.py:47-63 | the script's own labels: the assignment rows are `c1` to `c<cols>` and the facility-count row after them is always `c5`, whatever cols is |
| Assembly.Emit | LP_File_Creation/Capacitated_PCenter_CODE.py:45-92 | the threaded correction of the hard-coded labels: each block continues the previous block's counter, so the cols+1+rows*cols+len Qi+cols constraints are labelled 1, 2, ... with none repeated |
| Assembly.ThreadedOffsets | LP_File_Creation/Capacitated_PCenter_CODE.py:63-92 | on an n-site instance the block offsets are n, n+1, n+1+n*n and 2n+1+n*n; each equals the hard-coded 4 (label c5), 5, 21 or 25 iff n = 4 |
| Assembly.AssignmentRowsAt | LP_File_Creation/Capacitated_PCenter_CODE.py:165-166 | Subject To opens with the `cols` assignment rows, in the order the assignment generator emits them |
| Assembly.FacilityRowAt | LP_File_Creation/Capacitated_PCenter_CODE.py:166-167 | the facility-count row comes right after the `cols` assignment rows |
| Assembly.CapacityRowAt | LP_File_Creation/Capacitated_PCenter_CODE.py:166-169 | the capacity row of site s+1 is at position cols+1+rows*cols+s, after the assignment, facility-count and opening rows |
| Assembly.OpeningRowAt | LP_File_Creation/Capacitated_PCenter_CODE.py:166-168 | the opening row of site i+1 and client j+1 is at position cols+1+i*cols+j, reads `-x<j+1>_<i+1> + y<i+1> >= 0`, and carries the opening counter's start plus 1+i*cols+j as its label |
| Assembly.MaxCostRowAt | LP_File_Creation/Capacitated_PCenter_CODE.py:166-170 | the max-cost row of client a+1 is at position cols+1+rows*cols+len Qi+a, so the last cols rows are the max-cost rows |
| Assembly.XDeclarationsAt | LP_File_Creation/Capacitated_PCenter_CODE.py:172-178 | Bounds and Binaries both open with the `x` grid in row-major order: position i*cols+j is `x<i+1>_<j+1>`, with bounds 0 and 1 |
| Assembly.YDeclarationsAt | LP_File_Creation/Capacitated_PCenter_CODE.py:172-178 | after the `x` grid, position rows*cols+s of Bounds and of Binaries is `y<s+1>`, with bounds 0 and 1 |
| Assembly.AsWrittenContiguousIffFour | LP_File_Creation/Capacitated_PCenter_CODE.py:45-92 | on an n-site instance the script's labels are 1, 2, ... without gap or repeat iff n = 4, and the script's document equals the threaded one iff n = 4 |
| Assembly.AsWrittenLabelCollision | LP_File_Creation/Capacitated_PCenter_CODE.py:45-63 | with five or more clients the script labels both the fifth assignment row and the facility-count row `c5` |
| Assembly.AsWrittenLabelGap | LP_File_Creation/Capacitated_PCenter_CODE.py:45-92 | with fewer than four clients no row of the script's document carries the label cols+1 that should follow the assignment rows |
| Assembly.AssembledUsesWithin | LP_File_Creation/Capacitated_PCenter_CODE.py:165-170 | Subject To mentions only variables of the five blocks: `x` on the assignment, opening, capacity and max-cost grids, `y1..y<rows>`, `y1..y<|Q|>`, and `W` |
| Assembly.AssembledUsesAll | LP_File_Creation/Capacitated_PCenter_CODE.py:165-170 | conversely, every one of those variables is mentioned in some row of Subject To |
| Assembly.DeclaredVars | LP_File_Creation/Capacitated_PCenter_CODE.py:176-178 | the Binaries section declares exactly the x grid (rows by cols) and `y1..y<rows>` |
| Assembly.DeclaredCoversUsed | LP_File_Creation/Capacitated_PCenter_CODE.py:165-178 | on a non-empty instance, every constrained variable except `W` is declared binary iff rows = cols and len Qi <= rows; then the constraints use exactly the declared variables plus `W`, and `W` is never declared |
| Assembly.AssembledMeaning | LP_File_Creation/Capacitated_PCenter_CODE.py:164-170 | a valuation satisfies all of Subject To iff it meets the five conditions: single assignment, at most P sites, assignment only to open sites, capacity, and `W` bounding every client's cost |
| Assembly.BundledDocument | LP_File_Creation/Capacitated_PCenter_CODE.py:150-156 | the shipped instance is a symmetric 4-site instance; the script's document equals the threaded one, with 29 constraints, 20 bounds and 20 binaries |
| Assembly.BundledCapacityRow | LP_File_Creation/Capacitated_PCenter_CODE.py:150-169 | on the shipped instance, row c23 is `-6000 y2 + 1000 x1_2 + 1200 x2_2 + 1400 x3_2 + 1350 x4_2 <= 0` |

## Left out

- Reading `Cij` from a file (the commented-out `np.fromfile`) and writing the `.lp` file. Both are I/O.
- numpy array construction and `reshape`. The instance is given as `rows`, `cols`, a `seq<seq<int>>` matrix and `seq<int>` vectors. `Assembly.Shaped` states the shape the indexing needs.
- Rendering to text: the title, the triple-quote and copyright lines, the blank line before `End`, whitespace, and the `temp[:-2]` trimming of a trailing `+ `. A block's text is a direct printing of its structured rows.
- Python `str()` formatting of numbers, including the `--` the capacity row would print for a negative capacity. Float coefficients are also left out: the shipped instance is integral, so coefficients are `int`.
- The functions reading module globals rather than their parameters. In the model every generator takes all of `rows`, `cols`, `Cij`, `Ai` and `Qi` explicitly. On the script's single call site the two readings coincide.
- Validation of the instance and a parameter `p` for the facility count. The script has neither.
- Non-integer values of `W`. `Lp.Valuation` gives every variable an integer value, although the script never declares `W` binary or integer. The meaning lemmas therefore speak only of integer valuations. Every constraint is linear with integer coefficients, so no stated equivalence depends on this restriction beyond the values it ranges over.
- Solving the program, and any claim about feasibility or optimality. That belongs to the external solver.
- Declarations.XBinaries: its contract only states the length. Order, content and uniqueness are stated by `Declarations.XBinariesAt` and `Declarations.XBinariesExactlyOnce`.

## Findings

| source | as written | input that shows it | evidently intended | confidence | as-written member | corrected member |
|---|---|---|---|---|---|---|
| LP_File_Creation/Capacitated_PCenter_CODE.py:63-92 | the facility-count row is labelled `c5`; the opening, capacity and max-cost counters start at 5, 21 and 25 | any instance with 5 clients: the fifth assignment row and the facility-count row are both `c5`. With 3 clients no row is labelled `c4` | each block's labels continue from the previous block's last label, for any instance size | medium, not executed; the literals fit the 4-site instance the script ships, and the commented-out file read suggests other instances were meant to be read | Assembly.AsWrittenLabelCollision, Assembly.AsWrittenLabelGap | Assembly.Emit |
