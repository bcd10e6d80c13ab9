# Economic policy impact tool: VAR impulse responses and FOMC statement scoring

This project models two parts of the backend of an economic-policy analysis
tool and proves properties about them in Dafny.

**The impulse-response request (`POST /simulate/var_irf`).** The request body
gives a horizon, an impulse variable, a response variable and a shock size.
Any field the caller omits gets its default: 12 steps, FEDFUNDS, INFLATION
and 1.0. The first request that finds the cache empty fits a two-lag VAR on
the FEDFUNDS and INFLATION series. The fitted model is then stored
process-wide and never replaced. The reply takes the (response, impulse)
entry of the moving-average matrices Φ(0) … Φ(steps), multiplies each entry
by the shock size and numbers the points from 0. Every failure is an HTTP
500: the fit raising, a negative horizon, or an unknown variable name.

The model is split into these modules:
- `Matrices`: real square matrices.
- `MovingAverage`: the recursion Φ(0) = I, Φ(t) = Σ_{i=1..min(t,p)} A_i·Φ(t−i). This is what the fitted model's `irf` call returns.
- `VarApi`: the request logic (`Respond`) and the cache, a class `VarService` whose method `SimulateIrf` is one request.

**FOMC statement scoring (`analyze_statements`).** Each statement is
lower-cased and split at every `.`. For each of the two policy dimensions,
the scorer keeps the pieces that contain one of that dimension's keywords.
If no piece is kept, the score is 50. Otherwise it classifies the first 20
kept pieces, each cut to 512 characters. The score is
`positive / (positive + negative) * 100`, where positive and negative are
the summed confidences of sentences labelled `positive` and `negative`. It
is 50 when that total is 0, and it is rounded half-to-even.

A row whose lowered text is empty is skipped. Every other row yields one
record: the row's date plus one `<dimension>_positive_score` per dimension,
in table order. A table without a `statement_text` column is rejected
before any row is read.

The renaming step that runs before the scorer maps:
- `index` to `date`;
- `FOMC_Statements`, or failing that `statements`, to `statement_text`.

After renaming, both `date` and `statement_text` must be present.

The modules for this part:
- `Text`: Python's `lower`, `split`, the substring test and slicing.
- `NlpConfig`: the dimension table.
- `FomcScoring`: the scorer as a loop (`AnalyzeStatements`), proved equal to a specification function (`Analysis`), plus the renaming step (`NormalizeColumns`).

Outside inputs become parameters:
- The fit is a parameter of `SimulateIrf`. It is the lag matrices, or the error the fit would raise.
- The sentiment classifier is a parameter `classify`, a function from a sentence to its label and confidence.

The code answers an unknown variable name with status 500, has no lock
around the first fit, and does not reject a non-finite shock size; the model
does the same.

## Model

| member | source | states |
|---|---|---|
| VarApi.WithDefaults | backend/main_api.py:97-100 | an omitted field takes its default (12 steps, FEDFUNDS, INFLATION, 1.0); a given field is kept unchanged |
| VarApi.IndexOf | backend/main_api.py:121-122 | `names.index`: no position exactly when the name is not in the list; otherwise the first position holding it |
| VarApi.ModelPositions | backend/main_api.py:114-122 | on the fitted column order FEDFUNDS is at 0, INFLATION at 1, and every other name is unknown |
| VarApi.Entries | backend/main_api.py:124 | one value per horizon, each the (response, impulse) entry of that horizon's matrix |
| VarApi.Scale | backend/main_api.py:126 | same length, each value multiplied by the shock size |
| VarApi.Enumerate | backend/main_api.py:127 | point i carries step number i and the i-th value |
| VarApi.Respond | backend/main_api.py:119-135 | success exactly when steps ≥ 0 and both names are model variables; otherwise status 500 with the first failing check (horizon, then impulse, then response); on success the request fields are echoed and point t is (t, shock × Φ(t)[response][impulse]) for t = 0..steps |
| VarApi.ImpactValue | backend/main_api.py:119-126 | step 0 of a successful reply is the shock size when impulse equals response and 0 otherwise |
| VarApi.DefaultRequest | backend/main_api.py:97-127 | an empty request body on a fitted model succeeds with 13 points, the first being (0, 0.0) |
| VarApi.ShockLinearity | backend/main_api.py:126 | the reply for shock s is s times the unit-shock reply at every step, for every s including negative values |
| VarApi.UnitShock | backend/main_api.py:124-126 | at shock size 1.0 the values are the unscaled moving-average entries |
| VarApi.NoFeedbackToFundsRate | backend/main_api.py:119-124 | if no lag of the funds-rate equation loads on inflation, the funds rate responds 0 to an inflation shock at every horizon |
| VarApi.VarService.constructor | backend/main_api.py:37 | the cache starts empty, with no fit attempted |
| VarApi.VarService.SimulateIrf | backend/main_api.py:93-140 | a filled cache is never changed and no fit is attempted; with an empty cache the fit outcome is recorded, a success fills the cache, and a failure leaves it empty with reply FitFailed, status 500; with a model cached, the reply is `Respond` on that model; the invariant keeps only the last recorded attempt able to succeed |
| VarApi.AtMostOneFit | backend/main_api.py:103-117 | a fit history kept by the service invariant holds at most one successful fit, and holds one exactly when the last attempt succeeded, which the invariant ties to a filled cache: the model is fitted at most once per process |
| VarApi.TwoRequests | backend/main_api.py:103-119 | after a successful first fit, the second request is answered from the stored model whatever a refit would produce |
| MovingAverage.Phi | backend/main_api.py:119 | every moving-average matrix is k × k |
| MovingAverage.Table | backend/main_api.py:119 | `irf(periods=steps)` yields steps + 1 matrices, the t-th being Φ(t) |
| MovingAverage.PhiAtImpact | backend/main_api.py:119 | Φ(0) is the identity: a unit shock moves only its own variable, by one |
| MovingAverage.PhiAtOne | backend/main_api.py:119 | Φ(1) is the first lag matrix |
| MovingAverage.PhiAtTwo | backend/main_api.py:119 | Φ(2) = A_1·A_1 + A_2 when there are at least two lags |
| MovingAverage.PhiSingleLag | backend/main_api.py:119 | with one lag, Φ(t) is the t-th power of A_1 |
| MovingAverage.PhiZeroLags | backend/main_api.py:119 | with all-zero lag matrices, every response after impact is zero |
| MovingAverage.PhiLowerTriangular | backend/main_api.py:119 | lower-triangular lag matrices (no feedback from later to earlier variables) give lower-triangular responses at every horizon |
| Text.Lower | backend/scripts/scrape_fomc.py:70 | same length; each character folded from A–Z to a–z, others unchanged |
| Text.LowerIdempotent | backend/scripts/scrape_fomc.py:70 | lowering twice is lowering once |
| Text.ContainsAt | backend/scripts/scrape_fomc.py:80 | `w in s` holds exactly when w occurs at some position of s |
| Text.ContainsLower | backend/scripts/scrape_fomc.py:70-80 | an occurrence survives lowering both text and word |
| Text.UpperNeverMatchesLowered | backend/scripts/scrape_fomc.py:70-80 | a word with an uppercase letter never occurs in lowered text |
| Text.SplitPiecesFree | backend/scripts/scrape_fomc.py:79 | no piece of `split('.')` contains a period |
| Text.JoinSplit | backend/scripts/scrape_fomc.py:79 | joining the pieces with the separator gives back the text |
| Text.SplitCount | backend/scripts/scrape_fomc.py:79 | there is one more piece than the number of separators |
| Text.SplitWithoutSeparator | backend/scripts/scrape_fomc.py:79 | a text without the separator is a single piece |
| Text.Take | backend/scripts/scrape_fomc.py:84-85 | `s[:n]` has length min(n, \|s\|) and is a prefix of s |
| NlpConfig.TableShape | backend/nlp_config.py:5-30 | two dimensions, monetary stance first, with their display names and 22 and 20 keywords |
| NlpConfig.KeywordsAreLowerWords | backend/nlp_config.py:9-28 | every keyword is a non-empty a–z word and is unchanged by lowering |
| NlpConfig.SharedKeyword | backend/nlp_config.py:11-23 | "strong" is a keyword of both dimensions |
| FomcScoring.KeepRelevant | backend/scripts/scrape_fomc.py:79-80 | each piece holding a keyword is kept as often as it occurs, each other piece never, and the kept pieces keep their original order |
| FomcScoring.RelevantSentences | backend/scripts/scrape_fomc.py:79-80 | the relevant sentences are the pieces of the text that contain a keyword, in text order |
| FomcScoring.RelevantSentenceCounts | backend/scripts/scrape_fomc.py:79-80 | a relevant piece appears among the relevant sentences as often as in the text, any other piece never; with the order this fixes the list, repeated sentences included |
| FomcScoring.ForClassifier | backend/scripts/scrape_fomc.py:84-85 | at most 20 sentences (the first ones), each a prefix of its original of length min(len, 512) |
| FomcScoring.ClassifyAll | backend/scripts/scrape_fomc.py:86 | one sentiment per sentence, in order |
| FomcScoring.RoundHalfEven | backend/scripts/scrape_fomc.py:91 | the result is within 0.5 of the input, and an exact tie goes to the even integer |
| FomcScoring.SumLabelNonNegative | backend/scripts/scrape_fomc.py:87-88 | a label's summed confidence is non-negative for non-negative confidences |
| FomcScoring.AggregateBounds | backend/scripts/scrape_fomc.py:87-90 | for non-negative confidences the score lies in [0, 100] |
| FomcScoring.AggregateNeutral | backend/scripts/scrape_fomc.py:89-90 | a zero positive-plus-negative total gives 50 |
| FomcScoring.SumLabelAppend | backend/scripts/scrape_fomc.py:87-88 | a further sentence adds its confidence only to its own label's sum |
| FomcScoring.AggregateIgnoresOtherLabels | backend/scripts/scrape_fomc.py:87-88 | a sentence labelled neither positive nor negative (e.g. neutral) does not change the score |
| FomcScoring.SumLabelSwapped | backend/scripts/scrape_fomc.py:87-88 | swapping the labels swaps the two sums |
| FomcScoring.AggregateComplement | backend/scripts/scrape_fomc.py:87-90 | swapping positive and negative labels turns score x into 100 − x |
| FomcScoring.DimensionScoreBounds | backend/scripts/scrape_fomc.py:79-91 | for a non-negative classifier every dimension score, before and after rounding, lies in [0, 100] |
| FomcScoring.KeepNoneRelevant | backend/scripts/scrape_fomc.py:79-80 | no piece holding a keyword means no relevant sentence |
| FomcScoring.NothingRelevantIsNeutral | backend/scripts/scrape_fomc.py:81-82 | a statement with no keyword in any piece scores 50 without consulting the classifier |
| FomcScoring.KeywordInAnyCase | backend/scripts/scrape_fomc.py:70-80 | a sentence holding any case variant of a keyword is relevant after lowering |
| FomcScoring.StrongCountsTwice | backend/scripts/scrape_fomc.py:79-80 | a sentence containing "strong" is relevant to both dimensions |
| FomcScoring.LastIndex | backend/scripts/scrape_fomc.py:69 | `dict(zip(...))` key lookup: no position exactly when the name is absent from the zipped columns, otherwise the last one holding it |
| FomcScoring.Scores | backend/scripts/scrape_fomc.py:78-91 | one score field per dimension, in table order |
| FomcScoring.AnalyzeStatements | backend/scripts/scrape_fomc.py:54-94 | fails exactly when the table has no `statement_text` column, with that error; otherwise it returns the records of `Analysis`, row by row |
| FomcScoring.ScoreStatement | backend/scripts/scrape_fomc.py:77-91 | the inner loop yields the score field of each dimension in table order |
| FomcScoring.AnalyzeRowsAppend | backend/scripts/scrape_fomc.py:68-92 | analysing two batches of rows in turn is analysing their concatenation: records follow row order |
| FomcScoring.RecordCount | backend/scripts/scrape_fomc.py:68-92 | one record per row whose lowered text is non-empty, none for the others |
| FomcScoring.ScoresShape | backend/scripts/scrape_fomc.py:77-91 | a statement's scores are keyed `monetary_stance_positive_score` then `economic_outlook_positive_score`, each in [0, 100] |
| FomcScoring.ScoreKeys | backend/scripts/scrape_fomc.py:91 | the score keys are the dimension key followed by `_positive_score` |
| FomcScoring.RecordShape | backend/scripts/scrape_fomc.py:68-92 | every record has both keyed scores in [0, 100] for a non-negative classifier |
| FomcScoring.NanHoldsNoKeyword | backend/scripts/scrape_fomc.py:70-80 | the text "nan" contains no keyword of any dimension |
| FomcScoring.MissingTextScoresNeutral | backend/scripts/scrape_fomc.py:70-82 | a missing statement cell becomes the text "nan": the row is not skipped and both scores are 50 |
| FomcScoring.Rename | backend/scripts/scrape_fomc.py:40 | every column with the old name gets the new one; others and all rows are unchanged |
| FomcScoring.RenameMembership | backend/scripts/scrape_fomc.py:39-44 | after a renaming, a name is present exactly when it is the new name and the old or new name was present, or it is neither and was present |
| FomcScoring.NormalizeColumns | backend/scripts/scrape_fomc.py:37-48 | succeeds exactly when a date column (`index` or `date`) and a statement column (`FOMC_Statements`, `statements` or `statement_text`) exist; rows are unchanged and each column is mapped with `FOMC_Statements` taking precedence over `statements` |

## Left out

- Retrieving the FRED series, monthly resampling, the log-difference inflation series and the VAR estimation itself are not modelled. Their outcome is the `fit` parameter of `SimulateIrf`.
- The statsmodels library is not part of this model. `MovingAverage.Phi` is the moving-average recursion Σ_{i=1..min(t,p)} A_i·Φ(t−i), summed in increasing i.
- The library's orthogonalised responses, confidence bands and plotting are not used by the endpoint and are not modelled.
- VarApi.Respond: a negative horizon is modelled as one error, `NegativeHorizon`. The library fails for every negative `periods` (an empty table, or a negative array dimension), but the library is not visible in this model.
- VarApi.Respond: the other ways `irf` can raise are not modelled. These are the Cholesky factor of the residual covariance and the inverse of I − ΣA_i, which it computes besides Φ. The lag matrices here are given values, so "success exactly when" holds for them only.
- FinBERT is not modelled. It is the `classify` parameter, applied to each sentence independently.
- FastAPI routing, CORS and the HTTP error detail strings are not modelled. Only the status and the cause of the failure are kept.
- The other endpoints (`/`, `/data/fred/all`, `/analyze/fomc`) are not modelled.
- Scraping with FedTools and the CSV cache file are not modelled. `NormalizeColumns` takes the table as read.
- `main`'s merge of the scores with the texts and its CSV output are not modelled.
- The Streamlit front end, the logger and all progress printing are not modelled.
- Concurrency is not modelled. The code has no lock around the first fit, so two racing first requests could both fit. The model treats requests as sequential.
- Floating point is not modelled: all arithmetic is on exact reals. A non-finite shock size and float rounding of the score quotient are outside the model.
- Text.Lower: folds only A–Z. Python's Unicode case mapping of other scripts is not modelled.
- A table cell is only a string or a missing value (`str` gives "nan"). Other cell types such as numbers and timestamps, and how `str` renders them, are not modelled. A date is carried as the cell itself.
- Request fields of the wrong JSON type, and an explicit JSON `null`, are not modelled. A field is either absent or a value of the expected type.
- pandas' construction of the result DataFrame from the records is not modelled. It is kept as the list of records.
- FomcScoring.ClassifyAll: sentences are classified one at a time. The classifier's batching and its own truncation of long inputs are not modelled.
- NlpConfig.SharedKeyword: proves only that "strong" is in both keyword lists. It does not prove that no other keyword is shared.
