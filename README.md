# prioritize-ai, modelled in Dafny

prioritize-ai is a small Flask triage application. Users submit messages. A
classifier trained on a fixed corpus predicts each message's priority (`low`,
`medium` or `high`). Administrators see all messages on a dashboard ordered by
priority, and they can change a message's status and give it a final priority
that overrides the prediction.

This project models the deterministic rules at the core of the two source
files, `app.py` and `models/train_model.py`, and proves what those rules
guarantee:

- `normalize.dfy` — `preprocess_text`. It lower-cases, deletes everything
  that is not an ASCII letter or whitespace, collapses whitespace runs into
  one space and strips the ends. Proved: the shape of its output,
  idempotence, exactly when the output is empty, that symbols are deleted
  rather than replaced, and that the output is the text's words joined by
  single spaces.
- `inference.dfy` — `load_model` and `predict_priority`. The file system is
  an abstract map from path to file state. The fitted vectorizer and
  classifier are uninterpreted functions in the bundle. Proved:
  - the primary and legacy paths are tried in their fixed order;
  - a missing bundle falls back to `medium`;
  - the `KeyError`/`AttributeError` raised by a malformed bundle is the one
    its first failing lookup gives;
  - a prediction depends on the content only through its normalization.
- `labels.dfy` — the `VALID_STATUSES` and `VALID_PRIORITIES` sets and the
  three labels.
- `messages.dfy` — the `messages` table as a class whose `rows` map and
  AUTOINCREMENT counter the methods update in place.
  - `Submit` inserts a predicted row with the column defaults.
  - `Update` validates the form fields, builds the SET-clause and parameter
    lists step by step, and runs the statement only when there is a clause.
  - A small interpreter of that UPDATE statement is proved to do exactly
    what the update rule says.
  - Proved: the number of `?` placeholders equals the number of parameters;
    a rejected update changes nothing; only the targeted fields of the
    targeted row change.
- `dashboard.dfy` — the admin ordering. Each message is ranked by its
  effective priority (the final priority when truthy, else the prediction;
  high 3, medium 2, low 1, anything else 2). The messages are then sorted
  stably, highest rank first. `Bucketed` states this order: rank 3 in query
  order, then rank 2, then rank 1. A stable insertion sort method is proved
  to compute it. Of the order itself the model proves:
  - it is a permutation of the input;
  - the ranks are non-increasing;
  - it is stable;
  - it is the only order with those three properties;
  - each rank keeps the `status ASC, timestamp DESC` order of the query.
- `training.dfy` — the training script. Proved about it:
  - its normalizer is the same function as the app's;
  - the corpus is 37 examples (10 high, 12 medium and 15 low), all with
    valid labels, each normalizing to a non-empty text;
  - a stratified 80/20 split of it gives 29 training and 8 test rows;
  - the saved bundle has exactly the keys the app reads, and where it is
    written decides whether the app's loader finds it.

Nothing is cached or replaced atomically: `load_model` runs on every
prediction (app.py:77), and `joblib.dump` writes the file in place
(models/train_model.py:114).

## Model

| member | source | states |
|---|---|---|
| Labels.LabelName | app.py:16 | every label's name is one of `VALID_PRIORITIES` |
| Labels.LabelNamesAreValidPriorities | app.py:16 | the label names are exactly the valid priorities, and name the labels one-to-one |
| Normalize.LowerChar | app.py:70 | an ASCII capital becomes its own lowercase letter, white space and lowercase letters are unchanged, U+0130 becomes "i" and a combining dot, and the result holds an ASCII letter exactly when the character yields one |
| Normalize.LowerCharIgnoresCase | app.py:70 | two characters that differ only in ASCII case lower alike |
| Normalize.Lower | app.py:70 | the lowered text holds no ASCII capital; it is the characters' lowercase forms in order, as LowerPointwise states |
| Normalize.LowerPointwise | app.py:70 | without U+0130, lowering keeps the length and replaces each character by its lowercase form in place |
| Normalize.LowerIgnoresCase | app.py:70 | two texts that differ only in ASCII case lower alike |
| Normalize.LowerLetters | app.py:70 | lowering leaves no ASCII letter exactly when no character of the text yields one |
| Normalize.DeleteOther | app.py:71 | only ASCII letters and white space remain, never more characters than before, and the letters are kept in order |
| Normalize.DeleteOtherFixes | app.py:71 | text made only of ASCII letters and white space is unchanged |
| Normalize.DeleteOtherDropsAll | app.py:71 | a text with no ASCII letter and no white space is deleted entirely |
| Normalize.CollapseSpaces | app.py:72 | empty exactly when the input is, starts with a space exactly when the input starts with white space, and never holds two spaces in a row |
| Normalize.CollapseKeepsLetters | app.py:72 | collapsing keeps the letters in order |
| Normalize.CollapseLeavesOnlyBlanks | app.py:72 | after collapsing, the only white space left is the plain space |
| Normalize.Strip | app.py:72 | the stripped text neither starts nor ends with white space |
| Normalize.StripKeepsLetters | app.py:72 | stripping keeps the letters in order |
| Normalize.Preprocess | app.py:69-73 | the output is lowercase letters and single spaces, with no space at either end |
| Normalize.NormalizedIsFixed | app.py:69-73 | a text is left unchanged exactly when it is already in normalized form |
| Normalize.PreprocessIdempotent | app.py:69-73 | normalizing twice is normalizing once |
| Normalize.PreprocessIgnoresCase | app.py:69-73 | texts that differ only in ASCII case normalize alike (`Server DOWN` and `server down`) |
| Normalize.PreprocessKeepsLetters | app.py:70-72 | the output's letters are exactly the letters of the lowered input, in order |
| Normalize.PreprocessEmptyIff | app.py:70-72 | the output is empty exactly when no character of the input yields an ASCII letter (so empty and all-symbol input gives "") |
| Normalize.PreprocessDeletesSymbol | app.py:71 | a symbol between two parts is deleted, not replaced: the result equals that of the text without it (`re-boot` normalizes as `reboot`) |
| Normalize.PreprocessDropsUnletteredTail | app.py:71-72 | a tail with no letters, such as a space and a room number, leaves no trace in the output |
| Normalize.PreprocessJoinsTokens | app.py:71-72 | the output is the words of the lowered, cleaned text joined by single spaces |
| Normalize.Join | app.py:279 | `sep.join(parts)`, used with `', '` for the UPDATE's SET list and with `' '` for the words the normalizer's output is proved to join; definition, its properties are lemmas Messages.PlaceholdersOfQuery and Normalize.StripCollapseJoinsWords |
| Normalize.StripCollapseJoinsWords | app.py:72 | collapsing then stripping yields the text's words joined by single spaces |
| Normalize.TokensAppend | app.py:72 | white space separates words: the words of `a`, a blank, `b` are those of `a` followed by those of `b` |
| Inference.Open | app.py:61-63 | an absent path raises `FileNotFoundError`; a file loads exactly when it holds a pickle, giving its bundle |
| Inference.LoadModel | app.py:57-66 | with the primary path present, a bundle comes back exactly when it holds a pickle; with it absent, exactly when the legacy path holds one; the bundle is that file's |
| Inference.PrimaryWins | app.py:60-61 | a loadable primary file is the bundle returned |
| Inference.LegacyOnlyWhenPrimaryMissing | app.py:60-63 | when the primary path exists, the legacy path's contents make no difference |
| Inference.BrokenPrimaryGivesNone | app.py:60-66 | a primary file that fails to load gives None, without trying the legacy path |
| Inference.MissingPrimaryFallsBack | app.py:62-66 | with the primary missing, a bundle is returned exactly when the legacy file loads, and it is that file's bundle |
| Inference.BothMissingGivesNone | app.py:62-66 | both paths missing gives None |
| Inference.PredictPriority | app.py:76-87 | no bundle or an empty one gives `medium`; a usable bundle gives its classifier's label for the normalized text; it raises exactly when a non-empty bundle is unusable |
| Inference.Apply | app.py:81-86 | raises exactly when the bundle lacks a key or a method, otherwise applies the vectorizer then the classifier |
| Inference.PredictErrorOrder | app.py:81-86 | the error names the first lookup that fails: `model`, then `vectorizer`, then `transform`, then `predict` |
| Inference.SameNormalizationSameLabel | app.py:84-87 | two contents with equal normalizations get the same outcome |
| Inference.PredictOnNormalizedText | app.py:76-87 | predicting on already normalized text gives the same outcome |
| Messages.NewMessage | app.py:212-215 | the inserted row holds the submitter's user id, the submitted content and the given timestamp; it is well formed, with status `pending`, no final priority, and the predicted label's name |
| Messages.SetClauses | app.py:269-275 | the SET clauses in the order app.py appends them; definition, its properties are lemmas Messages.BuildUpdate, Messages.NoClausesIffNothingSupplied, Messages.BuiltClausesHaveOnePlaceholder and Messages.SetColumnsOfBuilt |
| Messages.SetParams | app.py:269-275 | the parameters app.py appends with those clauses; definition, its properties are lemmas Messages.BuildUpdate, Messages.NoClausesIffNothingSupplied and Messages.PlaceholdersMatchParams |
| Messages.BuildUpdate | app.py:266-275 | the lists built step by step are the status clause if status is truthy, then the final-priority clause if priority is truthy, with their values |
| Messages.NoClausesIffNothingSupplied | app.py:269-277 | there is no clause exactly when neither field is truthy; clauses and values pair up in order |
| Messages.BuiltClausesHaveOnePlaceholder | app.py:270-274 | each SET clause ends in its only `?` |
| Messages.UpdateQuery | app.py:279 | the f-string UPDATE statement over the joined SET list; definition, its properties are lemmas Messages.QueryFrameShape, Messages.PlaceholdersOfQuery and Messages.PlaceholdersMatchParams |
| Messages.QueryFrameShape | app.py:279 | the statement's fixed text has no `?` except the one ending the WHERE clause |
| Messages.PlaceholdersOfQuery | app.py:279 | a statement over clauses with one `?` each has one more `?` than clauses |
| Messages.PlaceholdersMatchParams | app.py:277-279 | the built statement's `?` count equals `len(params)`, which is `len(updates) + 1` |
| Messages.ExecuteUpdate | app.py:280 | `conn.execute`: a placeholder/parameter count mismatch is an error, otherwise the row with the trailing id gets the assignments; definition, its properties are lemma Messages.ExecuteBuiltUpdate |
| Messages.ExecuteBuiltUpdate | app.py:277-280 | running the built statement with its parameters succeeds and yields exactly the updated table |
| Messages.SetColumnsOfBuilt | app.py:269-280 | the built SET list applied to a row writes exactly the supplied fields |
| Messages.CheckUpdate | app.py:256-262 | the status check comes first: the status is rejected exactly when it is non-empty and invalid; the update is accepted exactly when each non-empty field is valid |
| Messages.UpdatedRows | app.py:252-283 | the table after an update keeps its ids and every other row, and a rejected update leaves it unchanged |
| Messages.RejectedUpdateChangesNothing | app.py:256-262 | an invalid non-empty status or priority leaves the table unchanged, and the outcome names which check failed |
| Messages.EmptyUpdateChangesNothing | app.py:277-283 | with neither field supplied the table is unchanged |
| Messages.UpdateIsLocal | app.py:277-280 | the same ids remain; every other row is unchanged; user, content, prediction and timestamp are unchanged; status and final priority change only when supplied, accepted, and then to the supplied value |
| Messages.UpdateWritesSuppliedFields | app.py:269-280 | an accepted update writes each supplied field to the target row |
| Messages.UpdateKeepsWellFormed | app.py:252-283 | the update keeps all rows well formed and below the id counter |
| Messages.InsertKeepsRows | app.py:33 | the next AUTOINCREMENT id is unused, and inserting a well-formed row there keeps all rows well formed and below the advanced counter |
| Messages.MessageTable.constructor | app.py:32-41 | a fresh table is empty, with the id counter at 1 |
| Messages.MessageTable.Submit | app.py:206-217 | on a successful prediction inserts exactly the new row under the next id and returns it; when prediction raises, nothing changes |
| Messages.MessageTable.Update | app.py:251-283 | the outcome is the validation's verdict; an UPDATE is issued exactly when accepted with a field supplied; the new table is the updated table |
| Dashboard.Rank | app.py:242 | every rank is 1, 2 or 3 |
| Dashboard.EffectivePriority | app.py:241 | a final priority that is present and non-empty wins; a NULL or empty one gives the predicted priority |
| Dashboard.PriorityValue | app.py:240-242 | the dashboard key is 1 to 3, and is 3 exactly for `high` and 1 exactly for `low` (everything else ranks 2) |
| Dashboard.RankOrdersLabels | app.py:230 | high ranks 3, medium 2, low 1; any other text ranks as medium |
| Dashboard.RankIsInjectiveOnLabels | app.py:230 | distinct labels have distinct ranks |
| Dashboard.FinalPriorityOverrides | app.py:241 | a truthy final priority decides the rank, otherwise the prediction does |
| Dashboard.WellFormedRowsHaveValidPriority | app.py:241-242 | stored rows always have a valid effective priority, so the fallback rank is never used for them |
| Dashboard.NewMessageRankedByPrediction | app.py:241 | a newly submitted row is ranked by its prediction |
| Dashboard.UpdatedPriorityTakesEffect | app.py:273-275 | after an accepted update with a priority, that priority is the row's effective priority |
| Dashboard.PriorityValuesAreRanks | app.py:242 | the dashboard key only takes the values 1 to 3 |
| Dashboard.Bucketed | app.py:244 | the reference order of a stable sort by rank, highest first: the key-3 elements in input order, then key 2, then key 1; its properties are the lemmas below |
| Dashboard.BucketedIsPermutation | app.py:244 | the reference order is a permutation of its input |
| Dashboard.BucketedIsNonIncreasing | app.py:244 | the reference order has non-increasing keys |
| Dashboard.BucketedIsStable | app.py:244 | the reference order keeps the input order among equal keys |
| Dashboard.NonIncreasingIsBucketed | app.py:244 | a sequence with non-increasing keys is its own reference order |
| Dashboard.StableSortIsUnique | app.py:244 | any non-increasing order that keeps each key's input order is the reference order |
| Dashboard.FilterKeepsOrder | app.py:236 | picking out one key's elements keeps any order the input was in |
| Dashboard.DashboardOrder | app.py:240-244 | the dashboard order is a permutation of the query result, with non-increasing ranks, stable within each rank |
| Dashboard.DashboardOrderIsUnique | app.py:244 | the dashboard order is the only order with those properties |
| Dashboard.QueryBefore | app.py:236 | `ORDER BY m.status ASC, m.timestamp DESC` as a relation on rows; definition, its properties are lemma Dashboard.RanksKeepQueryOrder |
| Dashboard.RanksKeepQueryOrder | app.py:236-244 | within each rank, messages keep the `status ASC, timestamp DESC` order of the query |
| Dashboard.SortByKey | app.py:244 | the stable descending insertion sort returns exactly the reference order |
| Dashboard.SortByPriority | app.py:240-244 | the dashboard's sort returns exactly the reference order of the messages by rank |
| Training.PreprocessText | models/train_model.py:9-14 | the training normalizer's output is lowercase letters and single spaces, with no space at either end |
| Training.SameNormalizationAsApp | models/train_model.py:9-14 | training and inference normalize every text identically |
| Training.HighBlock | models/train_model.py:20-29 | ten examples, all labelled high, each ending in a letter |
| Training.MediumBlock | models/train_model.py:32-43 | twelve examples, all labelled medium, each but the third ending in a letter |
| Training.LowBlock | models/train_model.py:46-60 | fifteen examples, all labelled low, each ending in a letter |
| Training.SampleData | models/train_model.py:16-66 | `create_sample_data()`: the high, then the medium, then the low examples; definition, its properties are lemmas Training.ClassCounts, Training.LabelsAreValidPriorities, Training.MessagesNormalizeNonEmpty and Training.CorpusCanBeStratified |
| Training.ClassCounts | models/train_model.py:18-61 | 37 examples: 10 high, 12 medium, 15 low |
| Training.LabelsAreValidPriorities | models/train_model.py:18-61 | every label of the corpus is in `VALID_PRIORITIES` |
| Training.NumberDropped | models/train_model.py:12-13 | a text ending in a letter and then four characters none of which yields a letter normalizes as the text without those four, and not to the empty text |
| Training.ProjectorEndsInRoomNumber | models/train_model.py:34 | the projector message is words, then " 205" |
| Training.ProjectorLosesRoomNumber | models/train_model.py:34 | normalizing it drops " 205" and leaves a non-empty text |
| Training.MessagesNormalizeNonEmpty | models/train_model.py:78 | no corpus message normalizes to the empty text |
| Training.TestSize | models/train_model.py:83 | the test part of a 0.2 split is the fifth of the rows rounded up |
| Training.CorpusCanBeStratified | models/train_model.py:81-84 | the corpus splits into 29 training and 8 test rows; every class has at least two rows and both parts can hold each class |
| Training.SavedBundle | models/train_model.py:109-112 | the bundle has exactly the keys `model` and `vectorizer`, and the app can use it |
| Training.SavedBundleClassifies | models/train_model.py:109-112 | the app's lookups on the bundle apply the fitted vectorizer, then the fitted classifier, to the normalized text |
| Training.Dump | models/train_model.py:114 | writing the bundle to a path makes that path load it and leaves every other file as it was |
| Training.SaveLocations | models/train_model.py:114 | the saved file name is the app's legacy path; inside `models/` it is the primary path |
| Training.SavedBundleServesPredictions | models/train_model.py:109-114 | with no primary file, a bundle saved at the root gives every prediction its classifier's label for the normalized text |
| Training.PrimaryShadowsSavedBundle | models/train_model.py:114 | any primary file hides a bundle saved at the root |
| Training.SavedInModelsServesPredictions | models/train_model.py:109-114 | a bundle saved from inside `models/` serves every prediction, whatever the legacy path holds |

## Left out

- Flask routing, sessions, `flash`, `redirect`, templates, the login and admin decorators, and environment configuration are web plumbing.
- Users, registration, login and werkzeug password hashing are not modelled. They are foreign cryptographic calls.
- The dashboard SELECT's inner JOIN with `users` (app.py:235) is left out. It adds the user's email, which plays no part in the ordering, and it hides messages whose `user_id` has no matching user; the model's dashboard shows every stored message.
- The sqlite engine is replaced by the in-memory `rows` map. Only the one UPDATE shape that app.py builds is interpreted.
- The SELECT's `ORDER BY` is not executed. `Dashboard.RanksKeepQueryOrder` takes the query's order as a hypothesis about its input.
- Time comes from outside: `Submit` takes the timestamp as a parameter.
- The user dashboard's query (app.py:195-199) is not modelled.
- joblib (de)serialization is an abstract per-path file state: missing, unreadable, or a map-shaped pickle.
- A pickle that is not a dictionary is not modelled. Neither are the `print` on load failure and what `not model_data` means for such values.
- TF-IDF vectorizing, logistic regression, `train_test_split`'s random draw and `classification_report` are not modelled. They are floating-point library internals. The fitted vectorizer and classifier are uninterpreted functions.
- No statement says that specific messages get specific labels.
- Training.CorpusCanBeStratified: states the split's size rule and class requirements, not which rows the seeded split draws.
- Printing and the sample predictions at the end of the training script (models/train_model.py:70-128) are left out.
- Normalize.Lower: models only the lowercase mappings that matter to the next step: ASCII capitals, KELVIN SIGN and LATIN CAPITAL LETTER I WITH DOT ABOVE. In the source every other character is lowered too, but each such character is either white space, which lowering leaves alone, or something `DeleteOther` deletes whether lowered or not.
- Normalize.PreprocessDeletesSymbol and Normalize.PreprocessDropsUnletteredTail: the concrete examples (`re-boot`, `Server DOWN!! completely (urgent)`) are stated as general lemmas over any text rather than computed on the literal strings.
