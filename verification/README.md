# Verified model of the Thief agent

A Thief and a Police play a pursuit game over a network without a referee. Each peer keeps its own truth, believes what
it can infer about the other, seals every step, and audits the other's log afterwards. This project models the Thief
peer in Dafny and proves what its parts guarantee together.

The modules follow the program:

- **Board, FloodFill, Strategy, StrategyFacts** - geometry, the worklist flood fill, the two shipped brains, the ranked
  shortlist and the constrained model choice. The flood fill counts path-reachable cells; as a consequence its term in
  the ranking never decides anything.
- **Grids, Belief, Diffusion, BeliefGrid, BeliefBounds, BeliefExclusions, BeliefTuning, BeliefFailure, BeliefSizes,
  BeliefBayes, Hints** - the probability grid. `Belief` gives every update as a
  value; `BeliefGrid` is the object whose nested loops perform it; `Diffusion` equates the scatter loop with its gather
  form and proves conservation; `BeliefBounds` bounds the influence of evidence and carries lower bounds through a whole
  message; `BeliefExclusions` says exactly when the exclusions of a message hold; `BeliefTuning` and `BeliefFailure`
  turn that into an inequality between trust and leak that is sufficient on every board and necessary on the smallest; `BeliefSizes`
  says what one message can do on a board of any size; `BeliefBayes` shows that every piece of evidence acts as Bayes'
  rule with a written-out weight.
- **Wire, Scent, ScentTrail** - the scent field in whole thousandths, its wire form, and what the receiver reads from it.
- **Audit, OwnState** - the commit-reveal log for any hash, and the private state with its replayable log.
- **Game, GameRuns, GameSafety, GameScent, GameEndings, Runtime** - one sub-game as a state machine (`Game`), the facts
  of every run (`GameRuns`, `GameSafety`, `GameScent`, `GameEndings`), and the handler and runtime objects that perform its transitions (`Runtime`).
  The Police is arbitrary: any message, malformed or not, may arrive, and any controls and any brain may act.
- **RateLimiter, LimiterRuns, LimiterQueue** - the sliding window and ticket queue. Each locked section is one atomic step
  of one caller; any number of callers interleave under a clock that never goes back. The complete grant log exists only
  in the model.
- **Gatekeeper, GatekeeperRuns** - retries, daily quota and circuit breaker for one caller at a time.
- **Mailbox, MailboxRuns** - commitments and reveals on any number of server threads; the queue put is a step of its own,
  after the lock is released.
- **ControlLink, ControlRuns** - the opt-in control channel and two such links over a channel that loses and reorders
  messages but never invents or repeats one.
- **Scoring, ScoringFacts** - dictionaries as ordered association lists, sub-game points and the series result.

Objects that the program updates in place are classes. The contract of each method equates the new state with a function
of the old one. The lemmas say what those functions mean, in the terms of the game: cells, log entries, records and
fields written out, so that each main operation has a law that does not mention the function it is about. The clock, dates, model replies, nonces, the hash, the rounding
function, the scent fall-off and the power of the relative reading are parameters; where a law needs an assumption about
one of them, its lemma names it (`Rounds`, `Falls`, `Raises`). Nothing is assumed of the hash: what could go wrong is part
of the conclusion (`Clash`).

Where code and documentation differ, the model follows the code:

- The comments of the mailbox promise a full check of a genuine prior commitment. A matching reveal that arrives after its
  expiry is refused but has already removed the commitment (`LateRevealFreesTheHash`); `AcknowledgedHashBinds` states the
  guarantee that remains.
- The exclusion of a cell falls back to the uniform grid when the cell held all but epsilon of the belief, which gives the
  excluded cell mass again (`ExcludeWorksIff`). Trust and leak are read unchecked from the private configuration;
  `TuningIff` says for which of them no message can do this, and `FirstMessageIff` is a first message that does.
- Prediction ignores barriers: a cell walled by an earlier message regains belief (`SupportExact`).
- Two peers that share one group name score a sub-game differently (`PeersScoreAlikeIff`).
- On a board of one cell the opening turn is a hold (`OpeningMovesIff`); a start cell without a step is not detected
  before the first message.

## Model

| member | source | states |
|---|---|---|
| Board.LegalMovesExact | src/thief_agent/domain/board.py:44-48 | The legal moves from a cell are exactly the single steps onto board cells without a barrier. |
| Board.NeighborsExact | src/thief_agent/domain/board.py:40-42 | The neighbours of a cell are exactly the open cells at Manhattan distance one. |
| Board.ConfinedExact | src/thief_agent/domain/own_state.py:35-37 | Being confined means that every adjacent cell is off the board or walled, and conversely. |
| FloodFill.Enqueue | src/thief_agent/strategy/action_candidates.py:46-49 | The inner loop marks and queues exactly the unseen neighbours, each once. |
| FloodFill.ReachableArea | src/thief_agent/strategy/action_candidates.py:41-50 | The worklist loop ends and returns exactly the number of cells joined to the start by a path of legal steps (the start included, even when walled). |
| FloodFill.AreaShrinksWithBarriers | src/thief_agent/strategy/action_candidates.py:41-50 | Adding barriers never enlarges the reachable region or its size. |
| FloodFill.AreaOneIffConfined | src/thief_agent/strategy/action_candidates.py:41-50 | The area is one exactly when the cell is confined. |
| FloodFill.JoinedSameRegion | src/thief_agent/strategy/action_candidates.py:41-50 | Two joined cells, the first of them open, reach the same region. |
| FloodFill.TargetsShareArea | src/thief_agent/strategy/action_candidates.py:53-59 | From an open cell all legal targets have the area of the cell itself, so the area distinguishes none of them. |
| Wire.IntRoundTrip | src/thief_agent/domain/grid_utils.py:11-18 | Parsing the decimal text of any integer gives the integer back, and that text holds no comma. |
| Wire.CellRoundTrip | src/thief_agent/domain/grid_utils.py:11-18 | A cell printed as row,column parses back to itself when it is on the board and to nothing otherwise. |
| Wire.FormatCellInjective | src/thief_agent/domain/scent.py:84-88 | Distinct cells have distinct wire keys, so a snapshot loses no trace to a key clash. |
| Wire.FormatsRowFirst | src/thief_agent/domain/scent.py:84-88 | A wire key holds the row before the column, the tens before the ones. |
| Belief.BestBeforeExact | src/thief_agent/domain/belief.py:117-125 | Scanning in row-major order keeps the first cell of highest probability: nothing scanned exceeds it and everything before it is strictly less. |
| BeliefGrids.BeliefGrid.constructor | src/thief_agent/domain/belief.py:27-41 | A new grid is uniform, with the given trust, power and leak. |
| BeliefGrids.BeliefGrid.ScatterFrom | src/thief_agent/domain/belief.py:76-86 | One source of the scan turns the mass received from all earlier sources into the mass received from those and itself. |
| BeliefGrids.BeliefGrid.DiffuseInPlace | src/thief_agent/domain/belief.py:71-88 | The nested scatter loops compute the gather form: each cell collects the shares of itself and its orthogonal neighbours, then the grid is normalised. |
| BeliefGrids.FindPeak | src/thief_agent/domain/belief.py:62 | The peak is the strongest reading, zero when there is none. |
| BeliefGrids.BeliefGrid.SharpenInPlace | src/thief_agent/domain/belief.py:63-67 | In whatever order the readings are visited, each scented cell is multiplied once by one plus the trust times the power of its reading relative to the peak, written out, and no other cell changes. |
| BeliefGrids.BeliefGrid.ObserveSmellInPlace | src/thief_agent/domain/belief.py:51-69 | Skipping malformed entries, clamping, sharpening, normalising and leaking together give the scent posterior. |
| BeliefGrids.ParsedInBounds | src/thief_agent/domain/belief.py:57-61 | Every usable reading names a board cell and lies between zero and one. |
| BeliefGrids.BeliefGrid.ObserveLikelihoodsInPlace | src/thief_agent/domain/belief.py:90-95 | Each named board cell is weighed once by its likelihood, never below epsilon, then the grid is normalised; keys off the board change nothing. |
| BeliefGrids.BeliefGrid.ExcludeInPlace | src/thief_agent/domain/belief.py:111-115 | A board cell is zeroed and the grid normalised; a cell off the board changes nothing. |
| BeliefGrids.BeliefGrid.MostLikelyCell | src/thief_agent/domain/belief.py:117-125 | The nested loops return the row-major first cell of highest probability. |
| Diffusion.ReachExact | src/thief_agent/domain/belief.py:79-83 | A source on the board sends to itself and the board cells next to it, each exactly once. |
| Diffusion.ScatterIsGather | src/thief_agent/domain/belief.py:71-87 | Scattering source by source over the whole board equals gathering target by target. |
| Diffusion.SpreadConserves | src/thief_agent/domain/belief.py:71-87 | Before normalising, prediction conserves exactly the mass of the cells it did not skip. |
| BeliefBounds.NormalizedCell | src/thief_agent/domain/belief.py:131-139 | With at least an epsilon of mass, normalising divides each cell by the sum of all. |
| BeliefBounds.NormalizeIsDistribution | src/thief_agent/domain/belief.py:131-139 | Normalising any non-negative grid gives a probability distribution, in the fall-back case too. |
| BeliefBounds.WholePowersRaise | src/thief_agent/domain/belief.py:14-16 | Every whole power, the shipped cube among them, is one of the admitted ways to sharpen a relative reading. |
| BeliefBounds.DiffuseIsDistribution | src/thief_agent/domain/belief.py:71-88 | Prediction leaves a probability distribution. |
| BeliefBounds.ScentInfluence | src/thief_agent/domain/belief.py:51-68 | Scent, before the leak, changes no cell by more than a factor of 1 + trust either way, whatever the packet holds. |
| BeliefBounds.HintInfluence | src/thief_agent/domain/belief.py:90-95 | A hint, whatever zone it names, changes no cell by more than a factor of two either way. |
| BeliefBounds.FadedPacketSameEvidence | src/thief_agent/domain/belief.py:51-69 | Scaling all readings in [0,1] by a common factor in (0,1] leaves the posterior exactly unchanged. |
| BeliefBounds.LeakFloor | src/thief_agent/domain/belief.py:141-149 | After the leak no cell is below the leaked uniform share. |
| BeliefBounds.ExcludeExact | src/thief_agent/domain/belief.py:111-115 | When enough mass remains, excluding zeroes the cell, lowers no other cell and keeps earlier zeros. |
| BeliefBounds.ExcludeWorksIff | src/thief_agent/domain/belief.py:111-115 | Excluding really rules a cell out exactly when the cell held at most 1 - epsilon; otherwise the grid falls back to uniform and the cell is positive again. |
| BeliefBounds.FuseFloor | src/thief_agent/peer/turn_handler.py:60-64 | Prediction, scent and hint together leave at least half the leaked uniform share in every cell. |
| BeliefBounds.BelieveRules | src/thief_agent/peer/turn_handler.py:60-87 | With a leak of at least 4e-9 and any trust, the belief after an undecided message is a distribution that is exactly zero on the Thief's cell and on the new barrier: no exclusion falls back to uniform. |
| BeliefExclusions.DiffusedAtMostThird | src/thief_agent/domain/belief.py:71-88 | On a board of size at least two no cell holds more than a third of the belief after prediction. |
| BeliefExclusions.FuseLeaves | src/thief_agent/peer/turn_handler.py:60-64 | Whatever the packet and hint, prediction, scent, leak and hint leave at least 1/(6(1 + trust)) of the belief outside any two cells, also without a leak. |
| BeliefExclusions.BelieveRulesIff | src/thief_agent/peer/turn_handler.py:60-87 | For any leak up to one, the belief after an undecided message rules out the own cell and the new barrier exactly when the belief before the exclusions leaves each of them an epsilon share. |
| BeliefTuning.BelieveHolds | src/thief_agent/peer/turn_handler.py:60-87 | On any board of size at least two it always does when trust and leak have the margin. |
| BeliefTuning.LeakGivesMargin | src/thief_agent/domain/belief.py:141-149 | A leak of at least 4e-9 gives every trust the margin. |
| BeliefTuning.ModerateTrustGivesMargin | src/thief_agent/domain/belief.py:51-68 | A trust of at most 499999998.5 has the margin with every leak, none included. |
| BeliefTuning.SupportExact | src/thief_agent/peer/turn_handler.py:60-87 | With margin and some leak the belief after an undecided message is zero exactly on the own cell and on the barrier of that message: no other cell, not even an earlier barrier, is ever ruled out. |
| BeliefFailure.WorstMessageIff | src/thief_agent/domain/belief.py:111-115 | One concrete message on the two-by-two board rules out the own cell and the new barrier exactly when trust and leak have the margin. |
| BeliefFailure.TuningIff | src/thief_agent/peer/turn_handler.py:60-87 | So the exclusions hold for every board of size at least two, every belief and every message exactly when trust and leak have the margin, a closed inequality between the two. |
| BeliefSizes.SizedMessageIff | src/thief_agent/domain/belief.py:111-115 | On a board of any size at least two, without a leak, one concrete message rules out the own cell and the new barrier exactly when trust is within the margin of that size. |
| BeliefSizes.SizedTuning | src/thief_agent/peer/turn_handler.py:60-87 | Per size and without a leak: a trust of at most 499999998.5 is always safe, a safe trust is within the margin of the size, and one of 999999998 or more is safe on no board. |
| BeliefBounds.MostLikelyPositive | src/thief_agent/domain/belief.py:117-125 | The most likely cell of a distribution is on the board and holds its highest, hence positive, probability. |
| BeliefBounds.BelievedThreatElsewhere | src/thief_agent/peer/turn_handler.py:72-86 | The believed Police cell is neither the Thief's own cell nor the new barrier. |
| BeliefBayes.PredictionFollowsInflow | src/thief_agent/domain/belief.py:71-88 | After prediction the odds of any two cells are the odds of their inflow, where every cell hands its probability on in equal parts to itself and its neighbours on the board; when every cell is below epsilon the belief is uniform. |
| BeliefBayes.LastReadingCounts | src/thief_agent/domain/belief.py:57-61 | A cell's reading is the intensity, cut to [0,1], of the last entry that names it; a cell that no usable entry names has none. |
| BeliefBayes.ScentIsBayes | src/thief_agent/domain/belief.py:62-68 | Before the leak, the posterior odds of any two cells are their prior odds times the ratio of 1 + trust * power(reading / peak), one for a cell without scent, for every admitted power. |
| BeliefBayes.CubedScentOdds | src/thief_agent/domain/belief.py:62-68 | With the shipped cube the weight of a scented cell is 1 + trust * q * q * q, q being its reading as a fraction of the peak. |
| BeliefBayes.ScentLeaks | src/thief_agent/domain/belief.py:141-149 | A positive leak moves each cell by that share towards one over the number of cells; any other leak changes nothing. |
| BeliefBayes.HintIsBayes | src/thief_agent/language/hints.py:29-50 | A hint multiplies odds by the ratio of its zone weights: one at the far side of the board, two at the near side or the middle, linear between, one everywhere without a zone. |
| BeliefBayes.ExclusionIsBayes | src/thief_agent/domain/belief.py:111-115 | An exclusion that does not fall back keeps the odds of all other cells. |
| BeliefBayes.BelieveIsBayes | src/thief_agent/peer/turn_handler.py:60-87 | With margin, the belief after an undecided message is what one step of the Police, the scent, the leak, the hint and the two exclusions make of it in this order, each by its written-out rule. |
| Hints.InferLikelihoods | src/thief_agent/language/hints.py:29-50 | The nested loops give every board cell the evidence of the named zone, and no evidence when no zone is named. |
| Hints.ScoreRange | src/thief_agent/language/hints.py:36-49 | On the board every score lies in [1,2], so the lower cut at one quarter never applies. |
| Hints.HintFactorRange | src/thief_agent/language/hints.py:29-50 | Any hint weighs every board cell by a factor in [1,2]. |
| Scent.EmitRadial | src/thief_agent/domain/scent.py:90-96 | The window loops give exactly the board cells of the window, each with its rounded intensity. |
| Scent.DepositExact | src/thief_agent/domain/scent.py:54-63 | A deposit raises exactly the window's board cells to at least the emitted value and leaves every other trace alone. |
| Scent.ScentField.DecayField | src/thief_agent/domain/scent.py:72-79 | In whatever order traces are visited, each fades once and exactly those below the floor are deleted. |
| Scent.ScentField.DepositAt | src/thief_agent/domain/scent.py:54-63 | A centre below the agreed minimum is refused and changes nothing; otherwise the emission is max-merged. |
| Scent.ScentField.Snapshot | src/thief_agent/domain/scent.py:84-88 | The wire form has one entry per live trace, with distinct keys, in any order. |
| Scent.ScentField.EmitAt | src/thief_agent/domain/scent.py:48-52 | Emitting fades, deposits and returns the snapshot of the result; a refused deposit still leaves the faded field. |
| ScentTrail.HalfUpRounds | src/thief_agent/domain/scent.py:72-79 | Rounding to the nearest thousandth, ties upwards, is one of the admitted roundings. |
| ScentTrail.InverseFalls | src/thief_agent/domain/scent_kernel.py:13-21 | The admitted fall-offs exist: the inverse of one plus the squared distance is one of them. |
| ScentTrail.EmitKeeps | src/thief_agent/domain/scent.py:48-63 | An emission keeps every trace at or below the agreed centre intensity, which the current cell reaches. |
| ScentTrail.EmitExact | src/thief_agent/domain/scent.py:48-96 | Cell by cell: what is left of a trace after fading by 1 - decay, gone below 0.01, and within the window the intensity times the fall-off at rows squared plus columns squared, whichever is stronger. |
| ScentTrail.TrailStrongestHere | src/thief_agent/domain/scent.py:48-63 | After any sequence of emissions the current cell holds the highest intensity of the field. |
| ScentTrail.SnapshotReadBack | src/thief_agent/domain/scent.py:84-88 | The receiver parses back exactly the live traces with their values, whatever the order of the entries. |
| ScentTrail.EmittedCellBoost | src/thief_agent/domain/belief.py:57-67 | From emission over the wire to observation, the emitter's own cell is multiplied by 1 + trust, or by one when the emission rounds to nothing. |
| ScentTrail.EmittedCellFullBoostIff | src/thief_agent/domain/belief.py:57-67 | The boost is the full 1 + trust exactly when the centre does not round to zero or trust is zero. |
| ScentTrail.EmitterNeverLowered | src/thief_agent/domain/belief.py:51-68 | Observing an emitted packet, before the leak, never lowers the emitter's own cell. |
| ScentTrail.DecayIsFadeOnce | src/thief_agent/domain/scent.py:72-79 | Decaying the field acts on each trace by itself. |
| ScentTrail.MissedCellFades | src/thief_agent/domain/scent.py:48-79 | A cell that the windows of further emissions all miss fades once per emission and is otherwise untouched. |
| ScentTrail.MissedTraceVanishes | src/thief_agent/domain/scent.py:48-79 | With decay above 0.05 a trace of v thousandths that the windows of max(1, v - 9) further emissions miss is gone from the field, for any rounding to the nearest thousandth. |
| ScentTrail.StrongTraceStays | src/thief_agent/domain/scent.py:48-79 | With decay below 0.05 a trace of at least ten thousandths stays in the field through any emissions. |
| Strategy.PickByMobility | src/thief_agent/strategy/team_strategy.py:34-48 | The loop over moves, each with its own flood fill, returns the first maximum under distance, low risk, true reachable area, novelty and target. |
| Strategy.RankedCandidates | src/thief_agent/strategy/action_candidates.py:67-82 | The built, sorted and numbered list is the ranking by utility with the true reachable area; without moves it is a single hold. |
| Strategy.DecideAction | src/thief_agent/domain/brains.py:55-98 | Heuristic pick, optional model choice and fallback give the specified action for any model reply. |
| StrategyFacts.FirstMaxIsMax | src/thief_agent/domain/brains.py:112-120 | The chosen move is beaten by none and strictly beats every earlier move. |
| StrategyFacts.SortIsBestFirst | src/thief_agent/strategy/action_candidates.py:75-82 | The ranking is a permutation of the candidates with none ahead of one before it. |
| StrategyFacts.AreaWeightIrrelevant | src/thief_agent/strategy/action_candidates.py:53-82 | From an open cell the ranking has the same order for every weight of the area term, zero included. |
| StrategyFacts.MobilityIgnoresArea | src/thief_agent/strategy/team_strategy.py:34-48 | From an open cell the mobility brain chooses as if its key had no area component. |
| StrategyFacts.EvaderPrefers | src/thief_agent/domain/brains.py:112-120 | The default brain picks, of all cells it can reach, the one farthest from the most likely Police cell, then an unvisited one, then the first in the order north, south, east, west. |
| StrategyFacts.MobilityPrefers | src/thief_agent/strategy/team_strategy.py:34-48 | From an open cell the mobility brain picks the farthest reachable cell, then the least believed, then an unvisited, then the northernmost, then the westernmost one. |
| StrategyFacts.FartherRanksFirst | src/thief_agent/strategy/action_candidates.py:53-59 | A target farther from the believed Police outranks a nearer one unless it carries at least 0.325 more belief: target distances differ by even numbers, and novelty cannot make up for two steps. |
| StrategyFacts.TopRankedIsFarthest | src/thief_agent/strategy/action_candidates.py:67-82 | The top candidate is farthest from the believed Police among all targets that do not carry 0.325 more belief than it. |
| StrategyFacts.RankedExact | src/thief_agent/strategy/action_candidates.py:53-82 | The ranked list holds each legal move once, with its written-out utility, strictly best first with ties in the order east, north, south, west, numbered A0, A1 and so on. |
| StrategyFacts.ChooseStaysListed | src/thief_agent/strategy/llm_tactics.py:42-80 | For any model reply or failure the choice is the fallback or an action of the ranked list. |
| StrategyFacts.ModelDecides | src/thief_agent/strategy/llm_tactics.py:42-80 | The model's entry is taken exactly when it is among the first one to four ranked ones, named by its id, with at least the asked confidence; otherwise the heuristic's move stands. |
| StrategyFacts.RankedAreLegal | src/thief_agent/strategy/action_candidates.py:67-74 | When some step is legal every ranked candidate is a legal step. |
| StrategyFacts.ShippedBrainsMove | src/thief_agent/domain/brains.py:70-98 | When some step is legal every shipped brain, with or without a model and for any reply, makes a legal step. |
| Audit.AuditRecords | src/thief_agent/domain/crypto.py:46-69 | The audit loop reports the steps of exactly the records that fail, in order. |
| Audit.AuditPassesIff | src/thief_agent/domain/crypto.py:46-69 | The audit passes exactly when every record verifies and is chained to the one before it, and exactly then all steps count as verified. |
| Audit.RecordJudged | src/thief_agent/domain/crypto.py:46-69 | One more record is accepted exactly when its commit is the digest of what it reveals and it continues the chain; otherwise its sealed step, or -1, is appended to the reported failures. |
| Audit.LastCommitFixesLog | src/thief_agent/domain/crypto.py:46-69 | Two audited fully chained logs with non-empty commits and equal last commits agree in length and in every payload, nonce and commit, or two of their records are a collision of the hash. |
| Audit.SealedRecordExtends | src/thief_agent/peer/step_records.py:39-71 | Appending an honestly sealed and chained record to an audited log keeps it audited, with one more verified step. |
| OwnState.OwnGameState.ApplyMove | src/thief_agent/domain/own_state.py:39-50 | A legal action moves, marks the cell visited and is logged; an illegal one changes nothing; the answer says which. |
| OwnState.RecordTruthful | src/thief_agent/domain/own_state.py:52-61 | Recording a move whose text leads to the new cell keeps the log replayable to every position, numbered from one, each with the number of distinct cells so far, and visited equal to the start plus all of them. |
| OwnState.ActTruthful | src/thief_agent/peer/turn_sender.py:31-35 | Whatever is decided, a turn appends exactly one entry; replaying the logged texts from the start cell still gives every logged position, and visited is the start plus all of them. |
| OwnState.ActStaysFree | src/thief_agent/peer/turn_sender.py:31-35 | A Thief on an open cell with a legal step is on such a cell after any turn. |
| OwnState.StepFlipsParity | src/thief_agent/domain/own_state.py:41-46 | A legal step changes the colour of the cell (row plus column modulo two). |
| GameRuns.PlayedLogKept | src/thief_agent/peer/turn_sender.py:31-51 | A turn with any decision keeps the log truthful, the records a mirror of it, and the audit passing. |
| GameRuns.ProcessFrame | src/thief_agent/peer/turn_handler.py:45-87 | An incoming message changes nothing of the private state but its barriers, and neither records, scent nor result. |
| GameRuns.ProcessHistory | src/thief_agent/peer/turn_handler.py:48-58 | Every message keeps the history at the Police's steps 1..n with distinct commits; an accepted one extends it by one. |
| GameRuns.ReplayOnlyDisputes | src/thief_agent/peer/turn_handler.py:48-53 | A message counts as a replay exactly when it is well formed and its commit was seen before, and then only the disputes change. |
| GameRuns.EveryRunAudits | src/thief_agent/peer/turn_sender.py:38-51 | In every run, for any Police and any brain, the records pass the audit with as many verified steps as turns were taken and tell the replayable truth. |
| GameRuns.EveryRunSealsTruth | src/thief_agent/peer/step_records.py:39-47 | From the records of any run alone: record k seals step k + 1, the role thief, one of the five move texts, and as [row, column] the cell that folding the sealed moves from the start gives; the last of these cells is the Thief's. |
| GameRuns.LastCommitFixesRun | src/thief_agent/peer/turn_sender.py:38-51 | The last commit of a run pins its records: any audited, fully chained log with non-empty commits that ends in it is those records, or the two exhibit a collision of the hash. |
| GameRuns.EveryRunCounts | src/thief_agent/peer/runtime.py:101-141 | At every loop head records, log and step number agree; while the game runs they are one ahead of the incoming step and the history; steps never exceed max(1, survival threshold). |
| GameSafety.UndecidedStaysFree | src/thief_agent/peer/turn_handler.py:67-76 | A message that leaves the game undecided leaves the Thief on an open cell with a legal step. |
| GameSafety.EveryRunStaysFree | src/thief_agent/peer/runtime.py:101-123 | On a board of size at least two the Thief of every running game stands on an open cell with a legal step. |
| GameSafety.AskedOnlyWhenFree | src/thief_agent/peer/turn_sender.py:31-35 | Whenever the brain is asked, at the opening or to answer a message, the Thief stands on an open cell with a legal step and every shipped brain makes one, for any model reply. |
| GameSafety.AskedIff | src/thief_agent/peer/turn_handler.py:45-87 | A running game goes on after a message exactly when it is well formed, new, from the Police, the next step, its barrier neither off the board nor on nor confining the Thief, and it claims neither survival nor the Thief's cell. |
| GameSafety.AreaNeverDecides | src/thief_agent/strategy/action_candidates.py:53-82 | At every turn of every game, the opening included, the ranking order and the mobility choice are those of a version without the area term. |
| GameSafety.EveryTurnChosen | src/thief_agent/domain/brains.py:91-120 | At every turn of every game a brain without a model logs a step onto its favourite reachable cell: the farthest from the believed Police, ties broken in its own order. |
| GameSafety.SingleCellHolds | src/thief_agent/domain/brains.py:94-96 | On the one-cell board every shipped brain holds, with a model or without. |
| GameSafety.OpeningMovesIff | src/thief_agent/peer/runtime.py:105 | The opening turn is a legal step exactly when the board has at least two rows. |
| GameSafety.ShippedRunAlternates | src/thief_agent/peer/turn_sender.py:31-35 | With shipped brains no turn of any run is a hold, and the cell's colour is that of the start shifted by the number of turns. |
| GameSafety.UndecidedBelief | src/thief_agent/peer/turn_handler.py:60-87 | The belief of an undecided message is prediction, scent, hint, barrier exclusion and own-cell exclusion, in this order. |
| GameSafety.UndecidedBeliefRules | src/thief_agent/peer/turn_handler.py:60-87 | That belief sums to one, is zero on the Thief's cell and on the new barrier, and its most likely cell is neither. |
| GameSafety.ProcessKeepsDistribution | src/thief_agent/peer/turn_handler.py:45-87 | Every message, decided, rejected or replayed, leaves the belief a distribution. |
| GameSafety.EveryRunKeepsDistribution | src/thief_agent/peer/runtime.py:101-141 | At every loop head of every run the belief is a distribution. |
| GameSafety.EveryRunBelieves | src/thief_agent/peer/turn_handler.py:60-87 | In every run an undecided message leaves a belief that rules out the Thief's own cell and the new barrier. |
| GameSafety.EveryRunReasons | src/thief_agent/peer/turn_handler.py:60-87 | In every run an undecided message moves the belief by prediction, scent, leak, hint and exclusions exactly as their written-out rules say. |
| GameSafety.FirstMessageIff | src/thief_agent/peer/turn_handler.py:60-87 | Where it fails: on the two-by-two board without a leak one concrete first message rules out the Thief's cell exactly when trust is at most 3/epsilon - 4; beyond, the belief is uniform again and its most likely cell is the Thief's own. |
| GameEndings.MessageDecides | src/thief_agent/peer/turn_handler.py:45-87 | A message raises, captures or concedes exactly when, by its own fields and the private state, it breaks the order, traps or truly names the Thief, or claims the end without trapping it. |
| GameEndings.MessageAnswers | src/thief_agent/peer/turn_handler.py:67-87 | A message is answered exactly when it is accepted, traps nobody and claims a cell but not the end, with that cell and whether the Thief is on it; and exactly the barrier of an accepted message joins the known ones. |
| GameEndings.EveryRunAnswersTruth | src/thief_agent/peer/turn_handler.py:79-87 | In every run the answer to a claim agrees with the sealed log: caught exactly when the claimed cell is the position in the Thief's last record. |
| GameEndings.PassHasReason | src/thief_agent/peer/runtime.py:106-122 | A pass that ends the game does so for the reason its result names, and it captures exactly when its message traps or truly names the Thief. |
| GameEndings.PassExact | src/thief_agent/peer/runtime.py:106-141 | A pass of a running game has exactly the result, raises exactly for the reasons, and seals a record exactly when, the message, the controls and the scent terms say: stop, silence, capture, concession, broken protocol, then the controls of the turn, then survival. |
| GameEndings.EveryEndExplained | src/thief_agent/peer/runtime.py:101-123 | Every result of every run was set by the opening turn or by one pass, made while the game was running, after which nothing changed, and for the reason the result names. |
| GameEndings.CaptureWasReal | src/thief_agent/peer/runtime.py:101-123 | A run ends in capture only after a message of that run whose barrier hit or confined the Thief or whose claim named its cell. |
| GameScent.EveryRunFollowed | src/thief_agent/peer/turn_sender.py:53-57 | In every run the scent field is what one emission at each logged cell, in order, leaves. |
| GameScent.EveryRunStrongestHere | src/thief_agent/peer/turn_sender.py:53-57 | At every loop head the scent sent out is strongest at the Thief's true cell, which the reader boosts in full exactly when the emission does not round to nothing or trust is zero. |
| Runtime.TurnHandler.ProcessTurn | src/thief_agent/peer/turn_handler.py:45-87 | The handler's in-place updates perform exactly the message transition, errors and early returns included. |
| Runtime.TurnHandler.AnswerClaims | src/thief_agent/peer/turn_handler.py:77-87 | A win claim ends in survival; a capture claim is answered truthfully and ends in capture when true; otherwise the own cell is excluded. |
| Runtime.ProcessIgnoresRuntime | src/thief_agent/peer/turn_handler.py:36-43 | Handling a message neither reads nor writes the runtime's records, scent or result. |
| Runtime.ThiefRuntime.PlayTurn | src/thief_agent/peer/turn_sender.py:31-66 | Moving or holding, sealing with the previous commit, emitting and detecting survival perform exactly the turn transition. |
| Runtime.ThiefRuntime.EmitNow | src/thief_agent/peer/turn_sender.py:52-66 | Survival is declared only after the emission went through; a refused emission raises with the record kept. |
| Runtime.ThiefRuntime.TakeTurnNow | src/thief_agent/peer/turn_sender.py:17-66 | Stop, quit, the opponent's quit and restart end the turn before the brain is asked; otherwise the turn is played. |
| Runtime.ThiefRuntime.ReceiveTurn | src/thief_agent/peer/runtime.py:131-141 | A protocol error sets a technical loss and propagates; a decided message sets its result. |
| Runtime.ThiefRuntime.OnePass | src/thief_agent/peer/runtime.py:106-122 | One pass of the loop is one transition: stop, timeout, replay without a turn, decided message, or answer. |
| Runtime.ThiefRuntime.Run | src/thief_agent/peer/runtime.py:101-123 | The whole loop reaches exactly the state of the run machine, which the whole-run theorems describe. |
| Runtime.StoppedStays | src/thief_agent/peer/runtime.py:106-122 | Once a result is set or an error raised, nothing that arrives later changes the state. |
| RateLimiting.RateLimiter.Prune | src/thief_agent/shared/rate_limiter.py:44-46 | The loop drops exactly the leading grants at least a window old. |
| RateLimiting.RateLimiter.TryGrantLocked | src/thief_agent/shared/rate_limiter.py:48-54 | A grant is given and logged exactly when fewer than the limit remain after pruning. |
| RateLimiting.RateLimiter.EnterLocked | src/thief_agent/shared/rate_limiter.py:58-65 | A newcomer is admitted, refused for depth, or queued with the next ticket, pruning included. |
| RateLimiting.RateLimiter.PollLocked | src/thief_agent/shared/rate_limiter.py:70-73 | Only the head of the queue may try, and only a grant removes it. |
| LimiterRuns.NewcomerDecided | src/thief_agent/shared/rate_limiter.py:58-65 | In every run a newcomer is admitted exactly when nobody waits and the last window of the complete log has room; otherwise it is refused at the depth limit or queued last with a new ticket. |
| LimiterRuns.SleeperDecided | src/thief_agent/shared/rate_limiter.py:69-73 | In every run a queued caller is granted after an uninterrupted sleep exactly when its ticket heads the queue and the last window of the complete log has room; otherwise it stays queued and checks its deadline again. |
| LimiterRuns.GivesUpIff | src/thief_agent/shared/rate_limiter.py:66-77 | A waiting caller gives up exactly when it is interrupted or finds the deadline, one timeout after queueing, reached; it takes no slot then. |
| LimiterQueue.WithoutExact | src/thief_agent/shared/rate_limiter.py:75-77 | Leaving removes exactly the given ticket from the queue, if it is there, and keeps the rest in order. |
| LimiterRuns.EveryRunSpaced | src/thief_agent/shared/rate_limiter.py:44-77 | For every interleaving of callers and every non-decreasing clock, grants of the complete log that are rpm apart are at least 60 seconds apart, and none is given when rpm is not positive. |
| LimiterRuns.WindowDecidesExactly | src/thief_agent/shared/rate_limiter.py:44-54 | Deciding on the pruned deque equals counting the recent grants of the complete log. |
| LimiterRuns.RefusedOnlyWhenFull | src/thief_agent/shared/rate_limiter.py:48-54 | In every run a try is granted exactly when fewer than rpm grants of the complete log are in the window. |
| LimiterQueue.OnlyOwnTicketLeaves | src/thief_agent/shared/rate_limiter.py:56-77 | A step leaves the queue alone, appends one fresh ticket, or removes the caller's own ticket. |
| LimiterQueue.GrantsAreFair | src/thief_agent/shared/rate_limiter.py:59-73 | A newcomer is granted only when nobody waits, a queued caller only when every earlier ticket has left. |
| LimiterQueue.EveryRunQueued | src/thief_agent/shared/rate_limiter.py:56-77 | In every run the waiting tickets increase, stay within the depth, belong each to one live call, and are granted in ticket order. |
| LimiterQueue.EveryRunCountsSleeps | src/thief_agent/shared/rate_limiter.py:66-74 | When every sleep lasts at least the drain interval, each completed sleep has used up that much of the caller's timeout. |
| LimiterQueue.WaitIsBounded | src/thief_agent/shared/rate_limiter.py:66-74 | Then no caller starts more sleeps than the number of drain intervals that cover the timeout. |
| Gatekeeping.Gatekeeper.CheckGuards | src/thief_agent/shared/gatekeeper.py:80-93 | The day rolls over, a spent quota refuses before the circuit is looked at, and a cooled circuit closes and forgets the failures. |
| Gatekeeping.Gatekeeper.NoteFailure | src/thief_agent/shared/gatekeeper.py:60-74 | A failure counts once in the total and the streak, and opens the circuit at the threshold. |
| Gatekeeping.Gatekeeper.Execute | src/thief_agent/shared/gatekeeper.py:44-78 | The retry loop performs exactly the attempts of the specification, with every way of ending. |
| GatekeeperRuns.ExecuteEnds | src/thief_agent/shared/gatekeeper.py:44-78 | At most max_retries + 1 calls are made; the provider's error is raised exactly when all of them were made and failed; a result is returned exactly when the last one succeeded; a negative max_retries makes no call and trips the assertion. |
| GatekeeperRuns.AttemptDecided | src/thief_agent/shared/gatekeeper.py:47-93 | An attempt calls exactly when the observed date has quota left, the circuit is not cooling and the limiter admits it; an answer ends the streak of failures, a failure lengthens it and opens the circuit at the threshold. |
| GatekeeperRuns.ExecuteExplained | src/thief_agent/shared/gatekeeper.py:44-93 | The calls made are those of the first attempts, all admitted; the call is refused for quota, circuit or a missing slot, in this order, exactly when all its calls failed and the next attempt meets that guard. |
| GatekeeperRuns.RefusalsExact | src/thief_agent/shared/gatekeeper.py:80-93 | A quota refusal happens exactly when the calls charged to the observed date have reached the quota, a circuit refusal exactly while an open circuit cools. |
| GatekeeperRuns.EveryRunGuarded | src/thief_agent/shared/gatekeeper.py:44-93 | Over any calls of one caller: the counters equal the log, no observed date is charged beyond the quota, and among any threshold + 1 consecutive failing calls some neighbours are at least the cooldown apart; the circuit is open only when the threshold of failures was reached since the last success. |
| Mailbox.PeerInboxes.AcceptCommit | src/thief_agent/infra/mcp_server.py:45-55 | A commitment is stored and acknowledged unless it lacks an id or hash or conflicts with the pending hash, which then changes nothing. |
| Mailbox.PeerInboxes.RevealLocked | src/thief_agent/infra/mcp_server.py:73-87 | Duplicate, mismatch, expiry and delivery are decided in this order, with the pending entry spent before the expiry is looked at. |
| Mailbox.PeerInboxes.AcceptReveal | src/thief_agent/infra/mcp_server.py:57-89 | Exactly the revealed messages are queued; one without an id is queued without any check. |
| MailboxRuns.EveryRunDeliversOnce | src/thief_agent/infra/mcp_server.py:69-89 | Over every interleaving of lock and later put, an id is marked delivered exactly when one reveal of it is on its way or was put, so each non-empty id is queued at most once and none is lost; a checked reveal carries the acknowledged hash and recorded envelope. |
| MailboxRuns.RevealDecided | src/thief_agent/infra/mcp_server.py:69-89 | A reveal goes on to the queue exactly when it has no id, or is no repeat, agrees with its pending commitment in hash and five recorded fields, if there is one, and is not late; what happens to the pending entry and the delivered ids is stated with it. |
| MailboxRuns.CommitDecided | src/thief_agent/infra/mcp_server.py:45-55 | A commitment becomes the pending one exactly when it has an id and a hash and no other hash is pending for that id; otherwise nothing changes. |
| MailboxRuns.EveryDeliveryAgrees | src/thief_agent/infra/mcp_server.py:76-83 | In every run each reveal that was checked against a commitment carries its hash and the same schema version, game, sub-game, step and sender where the commitment recorded them. |
| MailboxRuns.PendingEndsIff | src/thief_agent/infra/mcp_server.py:51-54 | A pending commitment ends exactly by a matching reveal, delivered or late, and until then its hash cannot be replaced. |
| MailboxRuns.AcknowledgedHashBinds | src/thief_agent/infra/mcp_server.py:45-89 | The first reveal let through after an acknowledgement carries the acknowledged hash, unless a matching one came late in between. |
| MailboxRuns.LateRevealFreesTheHash | src/thief_agent/infra/mcp_server.py:75-86 | The exception is real: a matching reveal that is refused as late spends the commitment, so a reveal with another hash is then accepted. |
| Controlling.ControlLink.BroadcastStatus | src/thief_agent/peer/control_link.py:77-86 | A status is sent only once enabled and only when its key differs from the last one sent. |
| Controlling.ControlLink.Handle | src/thief_agent/peer/control_link.py:104-127 | Each inbound kind has its effect; a restart is granted only while active. |
| Controlling.ControlLink.Drain | src/thief_agent/peer/control_link.py:94-102 | The loop handles every pending message in order and returns one event each. |
| Controlling.ControlLink.TakePendingRestart | src/thief_agent/peer/control_link.py:65-70 | An approved restart is consumed once. |
| Controlling.ControlledRuntime.Pump | src/thief_agent/peer/runtime_control.py:33-41 | Enabling on request, draining and announcing the status, in this order. |
| Controlling.ControlledRuntime.Check | src/thief_agent/peer/runtime_control.py:44-58 | Own quit comes before the opponent's, an own restart before an approved one; each sends and clears exactly what belongs to it. |
| ControlRuns.DrainIsReceives | src/thief_agent/peer/control_link.py:94-102 | Draining an inbox in one go is receiving its messages one step at a time, so the step system covers it. |
| ControlRuns.AnnouncedIsCurrent | src/thief_agent/peer/control_link.py:77-86 | Once enabled, the last status sent is the current one after every announcement: quit before stopped before paused before the turn's own. |
| ControlRuns.EveryRunKept | src/thief_agent/peer/control_link.py:48-132 | Over every interleaving of two links and every loss: an enable arrives only from a side that enabled, no status goes out before enabling or twice in a row with one key, and approved plus consumed restarts never exceed those sent. |
| ControlRuns.ActiveMeansBothEnabled | src/thief_agent/peer/control_link.py:48-51 | Active at one side means both users opted in; restarts consumed never exceed restart messages the peer sent and need an active link. |
| ControlRuns.ActiveStays | src/thief_agent/peer/control_link.py:48-51 | Once active, a side stays active for the rest of the run. |
| ControlRuns.ReceivedTells | src/thief_agent/peer/control_link.py:104-127 | Each kind of message changes its own part of the receiving link and nothing else; a restart is noted exactly while both sides are enabled. |
| ControlRuns.TurnsOnIff | src/thief_agent/peer/runtime_control.py:33-41 | A side opts in exactly when its user asked for it, and tells the other side once. |
| ControlRuns.CheckDecided | src/thief_agent/peer/runtime_control.py:44-58 | Own quit, the opponent's quit, an own restart and an approved restart decide a check in this order; what is sent, cleared and used up is stated for each. |
| ControlRuns.ReceivedRestartIsGranted | src/thief_agent/peer/control_link.py:116-119 | In every run a restart that reaches an active side is granted, at the latest by its first later check that meets neither a quit nor an own restart. |
| ControlRuns.EveryQuitWasAsked | src/thief_agent/peer/runtime_control.py:44-51 | In every run a side follows a quit only if the other user asked for one. |
| Scoring.GroupsExact | src/thief_agent/domain/scoring.py:42 | The groups are exactly the names in the rows, strictly sorted in text order. |
| Scoring.Credit | src/thief_agent/domain/scoring.py:53 | Exactly the winner's entry grows by one and the order of entries stays. |
| Scoring.Aggregate | src/thief_agent/domain/scoring.py:35-67 | The accumulation loop gives each group its number of sole wins, counts the drawn rows, and applies the bonus and winner rules. |
| ScoringFacts.SoleWinnerExact | src/thief_agent/domain/scoring.py:50-53 | A group wins a sub-game exactly when it has the best score and no other group has it. |
| ScoringFacts.OrderInRowsIrrelevant | src/thief_agent/domain/scoring.py:35-67 | The series result is unchanged by reordering the groups inside any row. |
| ScoringFacts.PeersScoreAlikeIff | src/thief_agent/report/subgame_entry.py:10-21 | The two peers' rows of one sub-game agree exactly when their group names differ or the point table is level for the outcome. |
| ScoringFacts.ScoreByRole | src/thief_agent/domain/scoring.py:18-32 | For a capture the police side earns capture_cop and the thief side capture_thief, for a survival survival_cop and survival_thief; any other outcome pays both the same technical loss, and a missing key is an error. |
| ScoringFacts.PeersNameSameWinner | src/thief_agent/report/subgame_entry.py:16-22 | Both peers name the same winning group, or none, for any declared winning role. |
| ScoringFacts.PeersDeriveSameSeries | src/thief_agent/report/subgame_entry.py:10-23 | Peers with distinct names and complementary roles derive the same series result from the same outcomes. |
| ScoringFacts.EverySubGameCounted | src/thief_agent/domain/scoring.py:45-56 | Wins plus draws equal the number of non-empty rows. |
| ScoringFacts.PointsGrow | src/thief_agent/domain/scoring.py:43 | One more row adds exactly the points it holds for the group, or none. |
| ScoringFacts.EntriesExact | src/thief_agent/domain/scoring.py:42-59 | Every group of the series has all its points, plus the bonus on a level series, and as many wins as there are rows in which its score is above every other. |
| ScoringFacts.PointsConserved | src/thief_agent/domain/scoring.py:43-59 | The totals add up to all points, plus twice the bonus exactly on a level series. |
| ScoringFacts.WinnerExact | src/thief_agent/domain/scoring.py:57-67 | There is no winner exactly on a level two-group series or with no groups; otherwise it is the first name in text order with the highest total. |

## Left out

- Floating point: probabilities, utilities and scores are reals, scent values whole thousandths, so rounding error, NaN and infinities are not modelled; the ranking and area theorems hold over the reals.
- Rounding and fall-off are any functions with the stated properties; whether a trace at a decay of exactly 0.05 vanishes depends on how ties round and is not stated.
- The power of the relative reading is any function that keeps one and stays within [0,1] there, as every power of at least zero does; a negative power, which divides by zero on an empty reading, is not modelled.
- The belief lemmas assume a trust of at least zero and a leak of at most one, which the configuration does not check.
- Integer text is ASCII without the interpreter's limit on very long numbers; keys that are not text are not modelled.
- JSON encoding, SHA-256 and nonces: the hash is any function of payload and nonce, and values are compared structurally, so that Python's True == 1 and text that cannot be encoded play no role.
- Constructor errors (an empty board, a start off the board, an even scent window) are preconditions.
- The language side: hint prose, landmark matching, prompts and the parsing of replies are arbitrary input; sealed text and token fields are arbitrary extra payload fields.
- Negotiation, sending messages (with the terminal message after a capture), the audit exchange, pausing, GUI, CLI, e-mail, HTTP, file output.
- An asynchronous exception between the first release of the limiter's lock and the guarded block, where the source has no statement.
- LimiterQueue.WaitIsBounded: needs every sleep to last its full interval; a clock that stands still lets a caller wait forever.
- GatekeeperRuns.EveryRunGuarded: one caller at a time, with dates and a positive clock that never go back, because check and charge are separate locked sections.
- BeliefFailure.TuningIff: the condition is necessary because of the two-by-two board; for a larger size it is sufficient, and without a leak SizedTuning gives a necessary one, with trusts between the two left open.
- ControlRuns.EveryRunKept: messages that fail validation (which raise out of the drain loop) do not occur between two such peers; events to the listener are not followed further.
- Reuse of the control link across a restarted series, and the discarding of inboxes before it, which is a loss like any other.
- `scale`, `observe`, `absorb`, `intensity_at`, `out_of_steps`, the protocol state machine, configuration loading and the result artifact: settled by reading a branch or two.
