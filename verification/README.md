# UMTS radio network visualizer: the exact core

The visualizer is a dashboard script that redraws four small 3G/UMTS
illustrations whenever a control changes. This project models the three
pieces of it that are exact computations, and proves properties about them:

- **CDMA superposition** (module `Cdma`, `cdma.dfy`). One chip sequence of
  ±1 values, of length `spreading_factor`, is shared by every user. Each user
  has one ±1 data bit. A user's spread signal is the chip sequence scaled by
  that bit. The composite signal is the elementwise sum of all spread signals
  (`np.sum(..., axis=0)`). The random chip and bit draws are parameters.
  The model proves that the composite is the chip sequence scaled by the sum
  of the bits. Every sample therefore lies in `[-num_users, num_users]` and
  has the parity of `num_users`. Correlating the composite with the chip
  sequence yields `spreading_factor * sum(bits)`. Because every user shares
  one code, bit vectors with equal sums give identical composites. The
  script's "Despreading" heading names a step it never performs.
- **Handover decision** (module `Handover`, `handover.dfy`). Given the two
  cell strengths as exact reals, cell A is chosen only when it is strictly
  stronger. A tie goes to cell B.
- **QoS table** (module `Qos`, `qos.dfy`). The four UMTS traffic classes map
  to a fixed (latency, data rate) pair of labels. The table is a dictionary
  keyed by class name. A name that is not a key is modelled as `None`; the
  source would raise a KeyError there.

## Model

| member | source | states |
|---|---|---|
| `Cdma.Spread` | app.py:21 | a user's spread signal has the chip sequence's length, and sample j is `bit * chips[j]` (`np.tile(chips, 1)` is the chips themselves) |
| `Cdma.SpreadSignals` | app.py:21 | exactly one spread signal per data bit, in bit order, each of length `spreading_factor` and equal to that bit's scaling of the chips |
| `Cdma.Composite` | app.py:22 | the sum over axis 0 of a non-empty list of equal-length signals has that length, and its sample j is the sum of every signal's sample j |
| `Cdma.SimulateCdma` | app.py:18-22 | with ±1 chips and bits of lengths `spreading_factor` and `num_users`: `num_users` spread signals, each sample `bits[i] * chips[j]` and itself ±1; the composite has length `spreading_factor`, sample j equals `chips[j] * sum(bits)` and lies in `[-num_users, num_users]` |
| `Cdma.SumAntipodal` | app.py:19 | the sum of n data bits of ±1 lies in `[-n, n]` and has the parity of n |
| `Cdma.ColumnSumOfSpread` | app.py:21-22 | column j of the spread signals adds up to `chips[j] * sum(bits)` |
| `Cdma.CompositeClosedForm` | app.py:21-22 | every composite sample equals `chips[j] * sum(bits)` |
| `Cdma.CompositeIsScaledChips` | app.py:21-22 | the composite equals the chip sequence scaled by `sum(bits)` |
| `Cdma.CompositeBounded` | app.py:18-22 | with ±1 chips and bits, every composite sample is between `-num_users` and `num_users` |
| `Cdma.CompositeParity` | app.py:18-22 | with ±1 chips and bits, every composite sample has the parity of `num_users` |
| `Cdma.SpreadAntipodalChips` | app.py:18-21 | scaling ±1 chips by k gives samples equal to k or -k |
| `Cdma.DotWithSpread` | app.py:18-21 | correlating ±1 chips with the chips scaled by k gives `k * spreading_factor` |
| `Cdma.DespreadYieldsBitSum` | app.py:18-24 | correlating the composite with the shared chips gives `spreading_factor * sum(bits)`, so only the sum of the bits survives |
| `Cdma.SameBitSumSameComposite` | app.py:19-22 | two bit vectors with the same sum produce identical composites |
| `Cdma.SharedCodeHidesBits` | app.py:19-22 | bits `[1, -1]` and `[-1, 1]` produce the same composite, so no per-user despreading is possible |
| `Handover.Name` | app.py:51 | the displayed name of a cell is "Cell A" or "Cell B" |
| `Handover.Other` | app.py:51 | the other cell differs from the given one |
| `Handover.Decide` | app.py:51 | the chosen cell is at least as strong as the other cell, and equal strengths choose cell B |
| `Handover.HandoverLabel` | app.py:51 | the result is "Cell A" or "Cell B", and it is "Cell A" exactly when `cell_a_power > cell_b_power` |
| `Handover.NameInjective` | app.py:51 | the two names are distinct, so the text identifies the cell |
| `Handover.DecideIff` | app.py:51 | cell A wins exactly when strictly stronger; cell B wins exactly when at least as strong |
| `Handover.DecideSwap` | app.py:51 | swapping two different strengths swaps the winner; swapping equal strengths leaves cell B the winner |
| `Handover.DecideMonotone` | app.py:51 | strengthening cell A or weakening cell B never takes a win away from cell A |
| `Qos.ParseClass` | app.py:13 | the key lookup finds the class with the given name, and finds none only when no class has that name |
| `Qos.Lookup` | app.py:64-69 | the table is total over the four classes; the latency rank of each class equals its selectbox position, and no class has a "Very Low" data rate |
| `Qos.Describe` | app.py:73-74 | the two displayed strings are the latency label and the data rate label of the class's row |
| `Qos.LookupByName` | app.py:64-74 | a name gives a pair exactly when it is one of the four class names, and that pair is the class's row |
| `Qos.LookupTable` | app.py:64-69 | Conversational gives ("Very Low", "Medium"), Streaming gives ("Low", "High"), Interactive gives ("Medium", "Medium") and Background gives ("High", "Low") |
| `Qos.SelectboxOptionsAreKeys` | app.py:13 | every selectbox option is a key of the table, so the lookup on lines 73-74 cannot miss |
| `Qos.ParseRoundTrip` | app.py:13 | looking up a class's own name gives that class back |
| `Qos.LookupInjective` | app.py:64-69 | no two classes share a row |
| `Qos.LatencyOrdered` | app.py:13 | a class later in the selectbox order has a strictly looser latency label, and conversely |

## Left out

- Page setup, sliders, selectbox and text output (app.py:5-13, 24, 53-54, 71-74): these are calls into the dashboard library. Only the selectbox's option list is modelled, as `Qos.Classes`.
- Plotting (app.py:25-29, 39-43, 56-59): rendering only.
- Random draws (app.py:18-19, 48-49): the chips and bits are parameters. `SimulateCdma` requires them to be ±1 and of lengths `spreading_factor` and `num_users`, which the draws guarantee.
- Power control (app.py:34-36): floating-point path loss and `np.linspace`, not modelled.
- Handover strengths (app.py:48-49): floating-point divisions, not modelled; the strengths are inputs to `Decide`. Line 49 divides by zero at distance 5.0, which the slider on line 12 allows. The model says nothing about that case.
- `Cdma.Composite` requires at least one user. `np.sum` over an empty list returns a scalar 0.0 rather than a signal. The slider on line 10 never allows zero users.
- The slider ranges (1-10 users, spreading factor 2-16) are not required: no property depends on them.
