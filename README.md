# paperAirplane central print server: a Dafny model

The central server of paperAirplane (`server/central.py`) receives print jobs
from client spoolers. It keeps each job as a spool file named after the job,
then passes the job's name through three queues, each served by its own
worker thread:

- `IncommingJob` writes the spool file and puts the name on `toRelease`;
- `JobRelease` moves the name to `toBill`;
- `Billing` works out the charge from the job's PostScript (page markers,
  and whether it is duplex), logs it, and moves the name to `toPrint`;
- `SendToPrinter` connects to the configured printer and deletes the spool
  file.

The model has four modules:

- `Jobs` holds the job record, the printer entry, the failures the code can
  raise, a `Result` type, and an `Option` type for a submission that may
  not decode.
- `PSParser` holds the two text tests on a payload: Python's `str.count` and
  `in`. `in` is proved equivalent to the existence of a start position. The
  count is proved equal to the number of start positions for the page
  marker, and for any other pattern that cannot overlap itself.
- `Billing` holds the cost of a job. It has the code as written, in which
  every duplex job raises on the undefined `ceiling`, and the corrected
  definition, which rounds half the page count up. It also holds the
  spool reads the billing worker makes.
- `Central` holds the pipeline as a class. Its fields are the spool, the
  three queues as sequences, and whether the billing and printer threads
  are still alive. One method models one iteration of each worker, and
  `Step` lets a scheduler pick which worker runs next. The invariant
  `Valid` says two things: every queued name has a spool file, and no name
  waits in two places. Every step preserves it, except ingestion under a
  name that is already queued, which the code never rejects.

The pipeline bills with the corrected cost, not the code's: as written,
every duplex job raises on the undefined `ceiling` (see "## Findings"), and
`BillStep` and `Step` do not show that crash. Two behaviours a reader might
not expect are kept as the code has them:

- A job whose destination printer is not configured is not removed from the
  spool. The printer lookup (`server/central.py:209-211`) is outside the
  `try`, so the `KeyError` escapes `printJob`, `rmJob` is never reached, and
  the printer thread ends.
- Billing never debits anyone. `Billing.run` only logs the charge
  (`server/central.py:155`); the database handle it opens is never used.

## Model

| member | source | states |
|---|---|---|
| PSParser.Contains | server/central.py:113 | `pat in s` holds exactly when some index is a start of `pat` in `s` |
| PSParser.Count | server/central.py:123 | Python's non-overlapping `str.count`: the count times the pattern's length never exceeds the text's length, and the count is 0 exactly when the pattern does not occur |
| PSParser.CountIsOccurrences | server/central.py:123 | for a pattern that cannot overlap itself, the greedy count equals the number of positions where the pattern starts |
| PSParser.CountSkip | server/central.py:123 | a stretch of text without the pattern's first character adds nothing to the count |
| PSParser.SkipInsideOccurrence | server/central.py:123 | no occurrence of a non-self-overlapping pattern starts inside another one |
| PSParser.PageMarkerNoSelfOverlap | server/central.py:123 | the page marker `%%Page:` cannot overlap itself |
| PSParser.PageCount | server/central.py:120-124 | the page count is 0 exactly when no `%%Page:` marker occurs; each counted page takes 7 characters of the payload |
| PSParser.PageCountIsMarkerPositions | server/central.py:120-124 | every position where a page marker starts counts as exactly one page |
| PSParser.IsDuplex | server/central.py:111-118 | a job is duplex exactly when `/Duplex true` occurs as a contiguous substring |
| Billing.ComputeCost | server/central.py:159-163 | a simplex job costs its page count; a duplex job costs half its page count rounded up; the cost never exceeds the page count |
| Billing.ComputeCostAsWritten | server/central.py:159-163 | as the code stands: a duplex job fails with an undefined `ceiling`, and every other job costs the same as the corrected cost |
| Billing.CostOf | server/central.py:159-163 | a spooled job is costed from its own PostScript with the corrected cost; a name with no spool file fails before anything is counted |
| Billing.GetUser | server/central.py:165-170 | a spooled job's user is the submitter recorded in its file; a name with no spool file fails |
| Billing.ThreeMarkerLayout | server/central.py:123 | a 43-character payload with markers at 0, 23 and 33 and nothing marker-like between them counts 3 pages |
| Billing.ExamplePageCount | server/central.py:120-124 | the example payload has 3 pages |
| Billing.ExampleIsDuplex | server/central.py:111-118 | the example payload is duplex |
| Billing.ExamplePayloadCost | server/central.py:159-163 | three duplex pages cost 2 |
| Billing.CeilingUndefinedOnExample | server/central.py:162 | the code as written fails on the example job, which should cost 2 |
| Central.ConsistentAfterTake | server/central.py:152 | taking a name off a queue keeps the invariant, and the name is then queued nowhere and has a spool file |
| Central.IngestKeepsConsistent | server/central.py:21-23 | spooling and queuing a name that is not already waiting keeps the invariant |
| Central.IngestDuplicateBreaksConsistent | server/central.py:37-46 | spooling and queuing a name that is already waiting leaves it queued twice, which breaks the invariant |
| Central.ReleaseKeepsConsistent | server/central.py:184-187 | a release moves a name between queues: the same names wait as before, and the invariant holds |
| Central.BillKeepsConsistent | server/central.py:151-157 | under the invariant, the name billing takes has a spool file, and the same names wait as before |
| Central.DispatchKeepsConsistent | server/central.py:200-206 | the name the printer worker takes is then queued nowhere; the invariant holds whether or not its spool file is deleted |
| Central.PrintPipeline.constructor | server/central.py:249-253 | the queues start empty, both workers run, and the invariant holds |
| Central.PrintPipeline.SaveJob | server/central.py:41-46 | the job is stored under its own name, replacing any file of that name, and the name is returned |
| Central.PrintPipeline.SendToBilling | server/central.py:37-39 | the name is appended to the release queue |
| Central.PrintPipeline.IngestJob | server/central.py:21-23 | an undecodable submission changes nothing; a decoded one is spooled under its name and queued last for release; the invariant survives when the name is not already waiting |
| Central.PrintPipeline.ReleaseStep | server/central.py:184-187 | the oldest name waiting for release goes last in the billing queue; the spool and the waiting names are unchanged; an empty queue leaves all as it is |
| Central.PrintPipeline.BillStep | server/central.py:151-157 | the oldest name waiting for billing is charged the corrected cost for its submitter and goes last in the printer queue; a name with no spool file ends the billing thread; under the invariant that never happens |
| Central.PrintPipeline.PrintJob | server/central.py:208-221 | a missing spool file or an unconfigured printer fails before anything is sent; otherwise the job goes to the configured printer, and a transport error is swallowed |
| Central.PrintPipeline.RmJob | server/central.py:235-238 | the named spool file is removed and nothing else; removing a file that is not there fails and changes nothing |
| Central.PrintPipeline.DispatchStep | server/central.py:200-206 | the oldest name waiting to print is sent and its spool file removed, whether or not the send worked; an unconfigured printer ends the thread and leaves the spool file in place; the invariant is kept, and a removed file is never still queued |
| Central.PrintPipeline.Step | server/central.py:256-260 | whichever worker runs, the invariant is kept (for ingestion, when the name is fresh); only the printer worker deletes a spool file, and only the one it just took; with the corrected cost and under the invariant, the only crash is an unconfigured printer |

## Left out

- Sockets: `Spooler` (binding, `listen`, `accept`) and `IncommingJob.getJob`'s reads are outside the model. A submission arrives already decoded, as an `Option<Job>`; `None` stands for every base64 or JSON failure and gives `Err(Undecodable)`.
- A document missing `name`, `originUser` or `originPrinter` raises in `getJob`'s log line (`server/central.py:34`) before anything is saved; the model counts it as undecodable. A document missing `destPrinter` or `postscript` is not modelled: the code would spool it and then end the printer worker (`server/central.py:227`) or the billing worker (`server/central.py:109`). A `Job` always has all five fields.
- Threads are modelled as a scheduler that runs one whole worker iteration per step. Interleavings inside an iteration are not modelled. A blocking `get` on an empty queue is the `Idle` outcome.
- The `threadControl` queue, the configuration file and `os.chdir` into the spool directory are left out; `printers` is a constructor parameter.
- `database.BillingDB` is opened but never used by the code, so it is left out.
- Logging is left out.
- Spool files are a map from job name to job. What a name means as a file path (directories, names that are not valid files) is not modelled.
- `printJob` has `s.sendall(ps)` commented out (`server/central.py:218`). `Delivered` therefore means connect and close only. `connectOk` stands for whether the socket calls raised.
- `CentralControl`'s thread start-up and `getConfig` are outside the model, apart from the empty queues the constructor creates.
- Central.PrintPipeline.BillStep: bills with the corrected `Billing.ComputeCost`. As written, every duplex job raises a NameError on `ceiling` (`server/central.py:162`): the name is already off `toBill`, it never reaches `toPrint`, and the billing thread ends. That crash is not in this contract, and "never crashes under the invariant" holds only for the corrected cost.
- Central.PrintPipeline.Step: inherits the corrected cost from `BillStep`, so its clause that the only crash under the invariant is an unconfigured printer does not cover the `ceiling` crash of the code as written.
- Central.PrintPipeline.Step: states the preserved invariant and which spool files can disappear; the outcome of each worker is stated by the step method it calls.

## Findings

| source | as written | input that shows it | evidently intended | confidence | as-written member | corrected member |
|---|---|---|---|---|---|---|
| server/central.py:162 | `cost = ceiling(cost / 2)` calls `ceiling`, which is neither defined nor imported, so every duplex job raises a NameError and ends the billing thread; `cost / 2` also already rounds down under Python 2 | the duplex payload `"%%Page: 1\n/Duplex true\n%%Page: 2\n%%Page: 3\n"` | half the page count rounded up: 3 duplex pages cost 2 | not executed | Billing.ComputeCostAsWritten, Billing.CeilingUndefinedOnExample | Billing.ComputeCost |
