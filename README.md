# Land suitability engine — a Dafny model of its decision core

The application is a one-page Streamlit dashboard. It ranks three candidate
industrial parcels in Minnesota (Rosemount, Farmington, Becker) for a chosen
development persona (Data Center, Industrial, Solar). The sidebar holds one
0–10 slider per weight key: nine sliders under the headings Utilities,
Logistics, Environment and Sentiment. The first persona chosen in a session
seeds the missing sliders with its defaults, and a reset button loads the chosen
persona's defaults. A simulated "AI sentiment scraper" reads a council
transcript and, as the code is written, writes a suggested weight into the
sentiment slider's key (see Left out for why Streamlit refuses that write).

For every parcel, the page computes a weighted mean of ten factor scores,
each from 0 to 100. A flood zone vetoes the parcel when the flood-risk slider
is 7 or more. The page then ranks the parcels from best to worst and labels
each score High, Medium or Low.

The model has seven modules. The first six follow the concerns of `app.py`, and the seventh works two council transcripts through the scorer:

- `Sentiment` (sentiment.dfy) models the keyword scorer and the suggested weight. It treats text as `seq<char>`, lower-cases ASCII only, and counts matches without overlap, as `str.count` does.
- `Scoring` (scoring.dfy) models the parcel record, the ten factors, and the imperative scoring loop. The loop is a `method` proved equal to a fold over the factors, and the fold's properties are proved as lemmas.
- `Buckets` (buckets.dfy) models the score thresholds and the colour classes.
- `Session` (session.dfy) models the persona table and the slider state. The state lives in a `SessionState` class whose field is a `map<string, int>`. Its methods are the seeding, the reset and the scraper button.
- `Ranking` (ranking.dfy) models the score-all-and-sort pass of `main`. The sort is a stable descending insertion sort, and the only order that ranks the scores is proved unique.
- `TapData` (tapdata.dfy) holds the parcel table and the Data Center preset, with the concrete scores and ranking they produce.
- `Transcripts` (transcripts.dfy) scores an opposing and a supporting council transcript, word by word.

Slider weights are integers, because the sliders are integer widgets converted
to `float`. Scores are exact `real`s.

Four behaviours of the code are easy to misread. The model states each as
the code has it:

- `str.count` does not count overlapping matches, so "aa" occurs once in "aaa" (`Sentiment.CountDoesNotOverlap`).
- Rosemount weighted on power alone scores 92, its own power value, because the weighted mean of a single factor is that factor's value (`TapData.RosemountPowerOnly`).
- The transcript "We strongly support this investment and the jobs it brings" holds three positive keywords ("support", "investment", "jobs") and no negative one. The code therefore scores it 50 + 10 · 3 = 80 (`Transcripts.SupportingTranscriptScore`).
- The docstring of `ensure_slider_state_for_persona` (app.py:161) says that it initialises or resets the slider state, but the function only writes keys that are missing. Every persona writes the same nine `w_` keys. So once any persona has seeded them, choosing another persona re-seeds nothing, and the sliders keep their old values (`Session.SeededNoop`, `Session.SwitchingPersonaSeedsNothing`). Only the reset button loads the new persona's defaults.

## Model

| member | source | states |
|---|---|---|
| Sentiment.SentimentScore | app.py:176-211 | the score is between 0 and 100, is a multiple of 10, and is 50 for empty or whitespace-only text |
| Sentiment.BlankIffAllSpace | app.py:181-182 | `not text or not text.strip()` holds exactly when every character is whitespace |
| Sentiment.CaseInsensitive | app.py:184 | lower-casing the transcript first does not change its score |
| Sentiment.CountZeroIffAbsent | app.py:207-208 | a keyword counts zero times exactly when it occurs nowhere in the text |
| Sentiment.CountFits | app.py:207-208 | non-overlapping matches of a keyword never need more characters than the text has |
| Sentiment.CountSplit | app.py:207-208 | a keyword without a space counts separately in the two halves of a text joined by a space |
| Sentiment.CountMissingChar | app.py:207-208 | a keyword that uses a character the text lacks counts zero |
| Sentiment.CountDoesNotOverlap | app.py:207-208 | "aa" is counted once in "aaa": matches do not overlap |
| Sentiment.Clamp | app.py:211 | the result lies in [0, 100], keeps values already inside, and sends the rest to the nearer end |
| Sentiment.RoundHalfEven | app.py:420 | Python's `round` is within one half of its argument |
| Sentiment.SuggestedWeightExact | app.py:420 | the suggested weight is exactly the score divided by ten, so it lies in [0, 10] |
| Scoring.ComputeParcelScore | app.py:214-287 | the loop returns the gate's zero score, the zero score for no positive weight, or 100 · weighted sum / total weight, with the contributions of the weighted factors |
| Scoring.AccumulateFactors | app.py:269-281 | the loop's weighted sum, total weight and contribution map equal their folds over the ten factors in table order |
| Scoring.ZeroOutGate | app.py:226-228 | a flood-zone parcel with the flood-risk slider at 7 or more scores 0 with no contributions |
| Scoring.ContributionKeys | app.py:273-281 | after the gate, a factor's label is a contribution key exactly when its weight is positive, and its value is raw score times weight |
| Scoring.SentimentKeyShared | app.py:256-267 | Clean History and Council Sentiment are both weighted by the one sentiment slider |
| Scoring.LabelInjective | app.py:242-253 | the ten factor labels are distinct |
| Scoring.TotalWeightZero | app.py:269-283 | the total weight is never negative, and it is zero exactly when no factor has a positive weight |
| Scoring.NoPositiveWeight | app.py:283-284 | with no positive weight the score is 0 and the contribution map is empty |
| Scoring.ScoreBetween | app.py:286 | the score lies between the smallest and the largest weighted factor value |
| Scoring.ScoreInRange | app.py:230-286 | for raw attributes in [0, 100] the score is in [0, 100] |
| Scoring.FactorValueInRange | app.py:230-253 | each normalised factor value, the inverted contamination included, is in [0, 100] |
| Scoring.OnlyPowerWeighted | app.py:286 | with only the power weight positive, the score equals the parcel's power value |
| Scoring.ScaleInvariant | app.py:286 | multiplying every weight by a positive constant leaves the score unchanged |
| Scoring.ScaledSums | app.py:278-280 | scaling the weights scales the weighted sum and the total weight by the same constant |
| Scoring.FloodExposureCurve | app.py:250 | flood exposure is 100 outside a flood zone; inside one it falls as the slider rises, reaching 0 at 10 |
| Buckets.BucketThresholds | app.py:290-295 | High exactly at 75 and above, Medium exactly on [50, 75), Low exactly below 50 |
| Buckets.BucketBoundaries | app.py:290-295 | 75 is High, 74.999 and 50 are Medium, 49.999 is Low |
| Buckets.ClassMatchesBucket | app.py:290-303 | the pill class is always the one for the score's bucket |
| Buckets.BucketMonotone | app.py:290-295 | a higher score never gets a lower bucket |
| Session.PersonaTableShape | app.py:123-157 | every persona sets all nine weight keys once, in the sidebar's order |
| Session.StateKeyInjective | app.py:164 | distinct weight keys get distinct `w_` state keys |
| Session.SeededKeys | app.py:160-166 | seeding adds exactly the persona's missing `w_` keys and keeps every value already there |
| Session.SeededIsAppliedUnderStore | app.py:160-166 | seeding is the persona's defaults overridden by whatever the session already holds |
| Session.SeededNoop | app.py:163-166 | once every key is present, seeding changes nothing |
| Session.SeededIdempotent | app.py:160-166 | seeding twice equals seeding once, and seeding after a reset changes nothing |
| Session.SwitchingPersonaSeedsNothing | app.py:160-166 | once one persona has seeded the store, seeding for any other persona leaves it unchanged |
| Session.AppliedKeys | app.py:169-173 | a reset adds the persona's `w_` keys and leaves every other key unchanged |
| Session.AppliedValues | app.py:171-173 | after a reset, every `w_` key holds the persona's default |
| Session.AppliedIsOverride | app.py:169-173 | a reset is the old store overridden by the persona's defaults |
| Session.AppliedIdempotent | app.py:169-173 | resetting twice equals resetting once |
| Session.SlidersAgree | app.py:328-441 | sliders that read equal values show equal weights |
| Session.SeedingKeepsSliders | app.py:316-317 | seeding before the sliders are drawn does not change the weights they return |
| Session.ResetShowsDefaults | app.py:320-321 | after a reset the sliders return exactly the persona's defaults, as on a fresh session |
| Session.SessionState.EnsureSliderStateForPersona | app.py:160-166 | for a known persona the store becomes its seeded version; an unknown persona is reported and changes nothing |
| Session.SessionState.ApplyPersona | app.py:169-173 | for a known persona the store becomes its reset version; an unknown persona is reported and changes nothing |
| Session.SessionState.RunSentimentScraper | app.py:416-422 | only two keys change: `w_sentiment` is set to the suggested weight of the transcript's score, and `last_scraped_sentiment` to the score itself, as the code is written (see Left out) |
| Ranking.SortDescending | app.py:520 | the result lists every index once, best score first, ties in table order |
| Ranking.TopIsFirstMaximum | app.py:520-522 | the first ranked entry has the highest score and is the earliest of the entries sharing it |
| Ranking.RankedOrderUnique | app.py:520 | only one order ranks a given list of scores |
| Ranking.RankParcels | app.py:504-524 | every parcel is scored once and listed in ranked order; the top entry is the first ranked entry, or a dash and 0 when the table is empty, and no parcel outscores it |
| TapData.TableScoresInRange | app.py:69-116 | every parcel of the table scores in [0, 100] |
| TapData.RosemountPowerOnly | app.py:69-85 | Rosemount weighted on power alone scores 92 |
| TapData.FarmingtonVetoed | app.py:86-100 | Farmington lies in a flood zone: a flood-risk slider of 7 or more scores it 0 |
| TapData.DataCenterUtilitySliders | app.py:124-129 | on a fresh session, the first five sliders show the Data Center defaults: the three utilities (power, fiber, water) and the logistics group (highway, rail) |
| TapData.DataCenterFreshSliders | app.py:124-134 | on a fresh session, the sidebar returns the Data Center preset |
| TapData.DataCenterReset | app.py:320-321 | a reset to Data Center brings back its preset, whatever the sliders held before |
| TapData.DataCenterFactorWeights | app.py:124-134 | the preset's weight for each of the ten factors, with the sentiment weight 7 on both shared factors |
| TapData.RosemountDataCenter | app.py:69-85 | under the Data Center preset Rosemount scores 85.4 |
| TapData.BeckerDataCenter | app.py:101-115 | under the Data Center preset Becker scores 4939 / 60 |
| TapData.DataCenterScores | app.py:504-511 | the Data Center scores in table order are 85.4, 0 (Farmington is vetoed) and 4939 / 60 |
| TapData.DataCenterOrder | app.py:520 | the Data Center ranking is Rosemount, Becker, Farmington |
| TapData.DataCenterEntries | app.py:520 | any listing in the ranked order of those scores is the Rosemount, Becker, Farmington listing |
| TapData.DataCenterOverview | app.py:504-524 | the page ranks Rosemount, Becker, Farmington and shows Rosemount with 85.4 as the top parcel |
| Transcripts.CountJoin | app.py:207-208 | a keyword without a space counts once for each word of a space-joined sentence that begins with it and has no room for a second match, and zero for each word that is too short for it or lacks one of its letters |
| Transcripts.LowerJoin | app.py:184 | lower-casing a space-joined sentence is lower-casing each of its words |
| Transcripts.AbsentJoin | app.py:207-208 | a non-space character that no word contains is absent from the joined sentence |
| Transcripts.OpposingTranscriptScore | app.py:176-211 | "Residents oppose this due to traffic and pollution concerns" scores 10: four negative hits and no positive one |
| Transcripts.SupportingTranscriptScore | app.py:176-211 | "We strongly support this investment and the jobs it brings" scores 80: three positive hits and no negative one |

## Left out

- Page layout, CSS, markdown, metrics, tables, the folium map with its marker colours and popups, and the latitude/longitude fields: these are presentation only.
- `st.experimental_rerun` and Streamlit's widget lifecycle: the model treats one script run as one pass over a `map<string, int>` store.
- Session.SessionState.RunSentimentScraper: the method models the two assignments at app.py:421-422 as written. It does not model Streamlit's rule, stated under "Caveats and limitations" in its Session State documentation, that a widget's key cannot be written once that widget has been created in the same script run; doing so raises `StreamlitAPIException`. The `w_sentiment` slider is created at app.py:396-405, before the write at app.py:421, so under that rule the button raises there and neither key changes.
- Slider widgets: the weight a slider returns is the value stored under its `w_` key, or the persona's default when the key is absent. The widgets' 0–10 range is not enforced on stored values. The one bound the contracts rely on is a precondition instead: the flood-risk slider is at least 0 in `Scoring.ScoreInRange`, `Scoring.FactorValueInRange`, `Scoring.FloodExposureCurve` and `TapData.TableScoresInRange`.
- The session store's string entries (`persona`, `transcript`): the store is modelled as `map<string, int>`. It holds the `w_` slider keys and the integer `last_scraped_sentiment`.
- Floating point: weights are integers and scores are exact rationals, so rounding in the last bit of a `float` is not modelled.
- Unicode: lower-casing and `strip()` cover ASCII letters and ASCII whitespace only.
- An unknown persona raises `KeyError` in the source. The session methods report it as `found == false` and leave the store unchanged.
- `TAP_DATA` as a dict keyed by name: the model keeps the parcels as a sequence of (name, parcel) pairs in insertion order. Duplicate names, which a dict would merge, are not modelled.
