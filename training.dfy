/**
 * The training script (models/train_model.py): its copy of the text
 * normalizer, the fixed labelled corpus, and the bundle it saves for the
 * web app to load. Fitting the vectorizer and the classifier is not
 * modelled; they enter as the two functions that make up the bundle.
 */
module Training {
  import opened Wrappers
  import opened Labels
  import Normalize
  import Inference

  /**
   * `preprocess_text` of the training script (models/train_model.py, lines
   * 11-13): lower-case, delete what is neither an ASCII letter nor
   * whitespace, collapse whitespace runs, strip. Its three statements are
   * textually identical to those of app.py, lines 70-72, so it is written as
   * the same composition of the same steps; the identity below rests on that
   * textual sameness.
   */
  function PreprocessText(text: string): (r: string)
    ensures Normalize.IsNormalized(r)
  {
    var lowered := Normalize.Lower(text);
    var kept := Normalize.DeleteOther(lowered);
    var collapsed := Normalize.CollapseSpaces(kept);
    Normalize.DeleteOtherLowered(lowered);
    Normalize.CollapseLowerText(kept);
    Normalize.StripKeepsShape(collapsed);
    Normalize.Strip(collapsed)
  }

  /** Training and inference normalize every text identically. */
  lemma SameNormalizationAsApp(text: string)
    ensures PreprocessText(text) == Normalize.Preprocess(text)
  {
  }

  /** One labelled row of the sample data frame: `message`, `priority`. */
  datatype Example = Example(message: string, priority: string)

  const HighExamples: seq<Example> := [
    Example("Server down completely, students cannot access online exam", "high"),
    Example("Critical security breach detected in student database", "high"),
    Example("Fire alarm system malfunctioning in dormitory", "high"),
    Example("Payment system crashed, cannot process tuition payments", "high"),
    Example("Network outage affecting entire campus", "high"),
    Example("Emergency evacuation needed in building A", "high"),
    Example("Database corruption, losing student records", "high"),
    Example("Website compromised, personal data at risk", "high"),
    Example("Heating system failed in winter dormitory", "high"),
    Example("Critical assignment system down before deadline", "high")
  ]

  const MediumExamples: seq<Example> := [
    Example("Printer in library not working properly", "medium"),
    Example("WiFi connection slow in computer lab", "medium"),
    Example(ProjectorMessage, "medium"),
    Example("Student portal login issues reported by few users", "medium"),
    Example("Cafeteria POS system occasionally freezing", "medium"),
    Example("Air conditioning unit making noise in office", "medium"),
    Example("Some students having trouble with course registration", "medium"),
    Example("Email notifications arriving with delay", "medium"),
    Example("Library computer runs slowly", "medium"),
    Example("Parking gate sensor needs calibration", "medium"),
    Example("Classroom whiteboard marker dried out", "medium"),
    Example("Online gradebook shows incorrect formatting", "medium")
  ]

  const LowExamples: seq<Example> := [
    Example("Request for new software installation on personal laptop", "low"),
    Example("Question about how to change password", "low"),
    Example("Suggestion to improve cafeteria menu", "low"),
    Example("Request for additional parking spaces", "low"),
    Example("Inquiry about campus tour schedule", "low"),
    Example("Feedback about website design preferences", "low"),
    Example("Request for more comfortable chairs in library", "low"),
    Example("Question about IT support hours", "low"),
    Example("Suggestion for new recreational activities", "low"),
    Example("Request for additional power outlets in study areas", "low"),
    Example("Inquiry about software training sessions", "low"),
    Example("General feedback about campus facilities", "low"),
    Example("Request for updated campus map", "low"),
    Example("Question about printer paper refill process", "low"),
    Example("Suggestion for extended library hours", "low")
  ]

  /** The third medium message, the only one of the corpus that ends in digits. */
  const ProjectorMessage: string := "Projector bulb needs replacement in classroom 205"

  /** `create_sample_data()`: the high, then the medium, then the low examples. */
  const SampleData: seq<Example> := HighExamples + MediumExamples + LowExamples

  /** How many examples carry `p`. */
  function Count(xs: seq<Example>, p: string): (n: nat)
    ensures n <= |xs|
  {
    if xs == [] then 0
    else (if xs[0].priority == p then 1 else 0) + Count(xs[1..], p)
  }

  lemma {:induction false} CountAppend(a: seq<Example>, b: seq<Example>, p: string)
    ensures Count(a + b, p) == Count(a, p) + Count(b, p)
  {
    if a == [] {
      assert a + b == b;
    } else {
      assert (a + b)[1..] == a[1..] + b;
      CountAppend(a[1..], b, p);
    }
  }

  /** Every example of `xs` carries `p`. */
  predicate AllLabelled(xs: seq<Example>, p: string) {
    forall i :: 0 <= i < |xs| ==> xs[i].priority == p
  }

  lemma {:induction false} CountOfLabelled(xs: seq<Example>, p: string, other: string)
    requires AllLabelled(xs, p)
    ensures Count(xs, p) == |xs|
    ensures other != p ==> Count(xs, other) == 0
  {
    if xs != [] {
      assert AllLabelled(xs[1..], p) by {
        forall i | 0 <= i < |xs[1..]| ensures xs[1..][i].priority == p {
          assert xs[1..][i] == xs[i + 1];
        }
      }
      CountOfLabelled(xs[1..], p, other);
    }
  }

  /** `m` ends in an ASCII letter. */
  predicate EndsWithLetter(m: string) {
    m != [] && Normalize.IsAsciiLetter(m[|m| - 1])
  }

  /** Lines 20-29: ten examples, all labelled high, each message ending in a letter. */
  lemma HighBlock()
    ensures |HighExamples| == 10
    ensures forall i :: 0 <= i < |HighExamples| ==> HighExamples[i].priority == "high" && EndsWithLetter(HighExamples[i].message)
  {
  }

  /** Lines 32-43: twelve examples, all labelled medium, each message but the third ending in a letter. */
  lemma MediumBlock()
    ensures |MediumExamples| == 12
    ensures forall i :: 0 <= i < |MediumExamples| ==>
      MediumExamples[i].priority == "medium" && (i != 2 ==> EndsWithLetter(MediumExamples[i].message))
  {
  }

  /** Lines 46-60: fifteen examples, all labelled low, each message ending in a letter. */
  lemma LowBlock()
    ensures |LowExamples| == 15
    ensures forall i :: 0 <= i < |LowExamples| ==> LowExamples[i].priority == "low" && EndsWithLetter(LowExamples[i].message)
  {
  }

  /** `create_sample_data()` holds 37 examples: 10 high, 12 medium and 15 low. */
  lemma ClassCounts()
    ensures |SampleData| == 37
    ensures Count(SampleData, "high") == 10
    ensures Count(SampleData, "medium") == 12
    ensures Count(SampleData, "low") == 15
  {
    HighBlock();
    MediumBlock();
    LowBlock();
    assert AllLabelled(HighExamples, "high") && AllLabelled(MediumExamples, "medium") && AllLabelled(LowExamples, "low");
    BlockCounts(HighExamples, MediumExamples, LowExamples, "high", "medium", "low");
  }

  /** The counts of three blocks labelled `p`, `q` and `r`, all different. */
  lemma BlockCounts(a: seq<Example>, b: seq<Example>, c: seq<Example>, p: string, q: string, r: string)
    requires AllLabelled(a, p) && AllLabelled(b, q) && AllLabelled(c, r)
    requires p != q && q != r && p != r
    ensures Count(a + b + c, p) == |a| && Count(a + b + c, q) == |b| && Count(a + b + c, r) == |c|
  {
    CountAppend(a + b, c, p);
    CountAppend(a + b, c, q);
    CountAppend(a + b, c, r);
    CountAppend(a, b, p);
    CountAppend(a, b, q);
    CountAppend(a, b, r);
    CountOfLabelled(a, p, q);
    CountOfLabelled(a, p, r);
    CountOfLabelled(b, q, p);
    CountOfLabelled(b, q, r);
    CountOfLabelled(c, r, p);
    CountOfLabelled(c, r, q);
  }

  /** The labels of three blocks labelled `p`, `q` and `r` all lie in any set holding those three. */
  lemma BlockLabelsIn(a: seq<Example>, b: seq<Example>, c: seq<Example>, p: string, q: string, r: string, valid: set<string>)
    requires AllLabelled(a, p) && AllLabelled(b, q) && AllLabelled(c, r)
    requires p in valid && q in valid && r in valid
    ensures forall i :: 0 <= i < |a + b + c| ==> (a + b + c)[i].priority in valid
  {
  }

  /** Every label of the corpus is one of app.py's valid priorities. */
  lemma LabelsAreValidPriorities()
    ensures forall i :: 0 <= i < |SampleData| ==> SampleData[i].priority in ValidPriorities
  {
    HighBlock();
    MediumBlock();
    LowBlock();
    assert AllLabelled(HighExamples, "high") && AllLabelled(MediumExamples, "medium") && AllLabelled(LowExamples, "low");
    BlockLabelsIn(HighExamples, MediumExamples, LowExamples, "high", "medium", "low", ValidPriorities);
  }

  /** `m` is a text ending in a letter, followed by four characters none of which yields a letter. */
  predicate WordsThenNumber(m: string) {
    && |m| > 4
    && EndsWithLetter(m[..|m| - 4])
    && forall k :: |m| - 4 <= k < |m| ==> !Normalize.YieldsLetter(m[k])
  }

  /** Normalizing such a text drops its last four characters and keeps the words before them. */
  lemma NumberDropped(m: string)
    requires WordsThenNumber(m)
    ensures Normalize.Preprocess(m) == Normalize.Preprocess(m[..|m| - 4])
    ensures Normalize.Preprocess(m) != []
  {
    var text, room := m[..|m| - 4], m[|m| - 4..];
    assert m == text + room;
    assert forall k :: 0 <= k < |room| ==> !Normalize.YieldsLetter(room[k]) by {
      forall k | 0 <= k < |room| ensures !Normalize.YieldsLetter(room[k]) {
        assert room[k] == m[|m| - 4 + k];
      }
    }
    Normalize.PreprocessDropsUnletteredTail(text, room);
    LetterLastNormalizesNonEmpty(text);
  }

  /** Line 34: the third medium message is words, then a space and the room number 205. */
  lemma ProjectorEndsInRoomNumber()
    ensures WordsThenNumber(ProjectorMessage)
    ensures ProjectorMessage[|ProjectorMessage| - 4..] == " 205"
  {
  }

  /** Normalizing it drops the room number and the space before it, and what remains still holds words. */
  lemma ProjectorLosesRoomNumber()
    ensures var m := ProjectorMessage;
      && |m| > 4 && m[|m| - 4..] == " 205"
      && Normalize.Preprocess(m) == Normalize.Preprocess(m[..|m| - 4])
      && Normalize.Preprocess(m) != []
  {
    ProjectorEndsInRoomNumber();
    NumberDropped(ProjectorMessage);
  }

  /** A text that ends in a letter keeps at least that letter. */
  lemma LetterLastNormalizesNonEmpty(s: string)
    requires EndsWithLetter(s)
    ensures Normalize.Preprocess(s) != []
  {
    Normalize.PreprocessEmptyIff(s);
  }

  /** Every message of `xs` keeps some text after normalization. */
  predicate AllHaveWords(xs: seq<Example>) {
    forall i :: 0 <= i < |xs| ==> Normalize.Preprocess(xs[i].message) != []
  }

  /** No training message normalizes to the empty string. */
  lemma MessagesNormalizeNonEmpty()
    ensures forall i :: 0 <= i < |SampleData| ==> Normalize.Preprocess(SampleData[i].message) != []
  {
    HighHaveWords();
    MediumHaveWords();
    LowHaveWords();
    AllHaveWordsAppend(HighExamples, MediumExamples);
    AllHaveWordsAppend(HighExamples + MediumExamples, LowExamples);
  }

  lemma HighHaveWords()
    ensures AllHaveWords(HighExamples)
  {
    HighBlock();
    NormalizeNonEmpty(HighExamples, -1, []);
  }

  lemma MediumHaveWords()
    ensures AllHaveWords(MediumExamples)
  {
    MediumBlock();
    ProjectorEndsInRoomNumber();
    NormalizeNonEmpty(MediumExamples, 2, ProjectorMessage);
  }

  lemma LowHaveWords()
    ensures AllHaveWords(LowExamples)
  {
    LowBlock();
    NormalizeNonEmpty(LowExamples, -1, []);
  }

  /**
   * Messages that end in letters, save the `j`-th, which is `w`, words
   * followed by a number: all normalize to something.
   */
  lemma NormalizeNonEmpty(xs: seq<Example>, j: int, w: string)
    requires forall i :: 0 <= i < |xs| && i != j ==> EndsWithLetter(xs[i].message)
    requires 0 <= j < |xs| ==> xs[j].message == w && WordsThenNumber(w)
    ensures AllHaveWords(xs)
  {
    if 0 <= j < |xs| {
      NumberDropped(w);
    }
    forall i | 0 <= i < |xs| && i != j
      ensures Normalize.Preprocess(xs[i].message) != []
    {
      LetterLastNormalizesNonEmpty(xs[i].message);
    }
  }

  lemma AllHaveWordsAppend(a: seq<Example>, b: seq<Example>)
    requires AllHaveWords(a) && AllHaveWords(b)
    ensures AllHaveWords(a + b)
  {
    forall i | 0 <= i < |a + b|
      ensures Normalize.Preprocess((a + b)[i].message) != []
    {
      if i < |a| {
        assert (a + b)[i] == a[i];
      } else {
        assert (a + b)[i] == b[i - |a|];
      }
    }
  }

  // ---------------------------------------------------------------------
  // The stratified 80/20 split

  /** `test_size=0.2` of `n` rows: the test part has a fifth of them, rounded up. */
  function TestSize(n: nat): (t: nat)
    ensures 5 * t >= n && 5 * t < n + 5
  {
    (n + 4) / 5
  }

  /**
   * A split stratified on `classes` can be drawn from `xs`: every class has
   * at least two rows, and both parts are large enough to hold one row of
   * each class.
   */
  predicate CanStratify(xs: seq<Example>, classes: set<string>) {
    && (forall i :: 0 <= i < |xs| ==> xs[i].priority in classes)
    && (forall p :: p in classes ==> Count(xs, p) >= 2)
    && TestSize(|xs|) >= |classes|
    && |xs| - TestSize(|xs|) >= |classes|
  }

  /** Lines 81-84: the corpus splits into 29 training and 8 test rows, stratified on the three priorities. */
  lemma CorpusCanBeStratified()
    ensures TestSize(|SampleData|) == 8 && |SampleData| - TestSize(|SampleData|) == 29
    ensures CanStratify(SampleData, ValidPriorities)
  {
    ClassCounts();
    LabelsAreValidPriorities();
    assert ValidPriorities == {"low", "medium", "high"};
    assert |ValidPriorities| == 3;
  }

  // ---------------------------------------------------------------------
  // The saved bundle

  /** `model_data`: the fitted classifier under 'model' and the fitted vectorizer under 'vectorizer'. */
  function SavedBundle(model: Inference.Features -> Label, vectorizer: string -> Inference.Features): (b: Inference.Bundle)
    ensures b.Keys == {"model", "vectorizer"}
    ensures Inference.Usable(b)
  {
    map["model" := Inference.Classifier(model), "vectorizer" := Inference.Vectorizer(vectorizer)]
  }

  /** The web app's lookups on the bundle find the fitted vectorizer and classifier, applied in that order. */
  lemma SavedBundleClassifies(model: Inference.Features -> Label, vectorizer: string -> Inference.Features, text: string)
    ensures Inference.Classify(SavedBundle(model, vectorizer), text) == model(vectorizer(Normalize.Preprocess(text)))
  {
  }

  /** The file name `joblib.dump` writes to, relative to the working directory. */
  const SaveName: string := "priority_model.pkl"

  /** `joblib.dump(model_data, 'priority_model.pkl')` writing to `path`: the file is simply overwritten. */
  function Dump(store: Inference.Store, path: string, b: Inference.Bundle): (r: Inference.Store)
    ensures r.Keys == store.Keys + {path}
    ensures Inference.Open(r, path) == Inference.Loaded(b)
    ensures forall p :: p in store && p != path ==> r[p] == store[p]
  {
    store[path := Inference.Pickle(b)]
  }

  /** Run from the repository root the script writes the legacy path; run from `models/` it writes the primary path. */
  lemma SaveLocations()
    ensures SaveName == Inference.LegacyPath
    ensures Inference.ModelsDir + SaveName == Inference.PrimaryPath
  {
  }

  /** With no primary file, a bundle saved at the repository root is what every prediction uses. */
  lemma SavedBundleServesPredictions(store: Inference.Store, model: Inference.Features -> Label, vectorizer: string -> Inference.Features, content: string)
    requires Inference.PrimaryPath !in store
    ensures Inference.PredictPriority(Dump(store, SaveName, SavedBundle(model, vectorizer)), content)
      == Ok(model(vectorizer(Normalize.Preprocess(content))))
  {
    SaveLocations();
    SavedBundleClassifies(model, vectorizer, content);
    var s := Dump(store, SaveName, SavedBundle(model, vectorizer));
    assert Inference.PrimaryPath !in s;
    Inference.MissingPrimaryFallsBack(s);
  }

  /** A primary file, whatever it holds, hides a bundle saved at the repository root. */
  lemma PrimaryShadowsSavedBundle(store: Inference.Store, b: Inference.Bundle, content: string)
    requires Inference.PrimaryPath in store
    ensures Inference.PredictPriority(Dump(store, SaveName, b), content) == Inference.PredictPriority(store, content)
  {
    SaveLocations();
    Inference.LegacyOnlyWhenPrimaryMissing(store, Inference.Pickle(b));
  }

  /** A bundle saved from `models/` is used whatever the legacy path holds. */
  lemma SavedInModelsServesPredictions(store: Inference.Store, model: Inference.Features -> Label, vectorizer: string -> Inference.Features, content: string)
    ensures Inference.PredictPriority(Dump(store, Inference.ModelsDir + SaveName, SavedBundle(model, vectorizer)), content)
      == Ok(model(vectorizer(Normalize.Preprocess(content))))
  {
    SaveLocations();
    SavedBundleClassifies(model, vectorizer, content);
    Inference.PrimaryWins(Dump(store, Inference.ModelsDir + SaveName, SavedBundle(model, vectorizer)), SavedBundle(model, vectorizer));
  }
}
