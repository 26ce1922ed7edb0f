/**
 * Loading the trained bundle and predicting a priority (app.py, lines 57-87).
 *
 * The file system is an abstract store: a path that is absent from it
 * raises `FileNotFoundError` when opened, a path holding an unreadable
 * file raises some other exception, and a readable file unpickles to the
 * dictionary it holds. The fitted vectorizer and classifier are
 * uninterpreted functions.
 */
module Inference {
  import opened Wrappers
  import opened Labels
  import Normalize

  /** A feature vector, as produced by the vectorizer. */
  type Features = seq<real>

  /** A value stored in the bundle dictionary. */
  datatype Component =
    | Classifier(predict: Features -> Label)
    | Vectorizer(transform: string -> Features)
    | Other

  /** The unpickled dictionary. */
  type Bundle = map<string, Component>

  datatype FileState = Pickle(bundle: Bundle) | Unreadable

  type Store = map<string, FileState>

  /** What `joblib.load(path)` does. */
  datatype Opened = Loaded(bundle: Bundle) | NotFound | Failed

  const ModelsDir: string := "models/"
  const LegacyPath: string := "priority_model.pkl"
  /** `models/priority_model.pkl`. */
  const PrimaryPath: string := ModelsDir + LegacyPath

  function Open(store: Store, path: string): (r: Opened)
    ensures r.NotFound? <==> path !in store
    ensures r.Loaded? <==> path in store && store[path].Pickle?
    ensures r.Loaded? ==> r.bundle == store[path].bundle
  {
    if path !in store then NotFound
    else match store[path]
      case Pickle(b) => Loaded(b)
      case Unreadable => Failed
  }

  /** `load_model()`: the primary path, then the legacy path only if the primary is missing. */
  function LoadModel(store: Store): (r: Option<Bundle>)
    ensures PrimaryPath in store ==> (r.Some? <==> store[PrimaryPath].Pickle?)
    ensures PrimaryPath !in store ==> (r.Some? <==> LegacyPath in store && store[LegacyPath].Pickle?)
    ensures r.Some? ==> r.value == (if PrimaryPath in store then store[PrimaryPath] else store[LegacyPath]).bundle
  {
    match Open(store, PrimaryPath)
    case Loaded(b) => Some(b)
    case Failed => None
    case NotFound =>
      match Open(store, LegacyPath)
      case Loaded(b) => Some(b)
      case _ => None
  }

  /** A primary file that loads is what is returned. */
  lemma PrimaryWins(store: Store, b: Bundle)
    requires PrimaryPath in store && store[PrimaryPath] == Pickle(b)
    ensures LoadModel(store) == Some(b)
  {
  }

  /** The legacy file matters only when the primary path is missing. */
  lemma LegacyOnlyWhenPrimaryMissing(store: Store, f: FileState)
    requires PrimaryPath in store
    ensures LoadModel(store[LegacyPath := f]) == LoadModel(store)
  {
    assert |PrimaryPath| != |LegacyPath|;
  }

  /** A primary file that exists but fails to load gives no bundle, whatever the legacy path holds. */
  lemma BrokenPrimaryGivesNone(store: Store)
    requires PrimaryPath in store && store[PrimaryPath] == Unreadable
    ensures LoadModel(store) == None
  {
  }

  /** With the primary path missing, the result is exactly what the legacy path yields. */
  lemma MissingPrimaryFallsBack(store: Store)
    requires PrimaryPath !in store
    ensures LoadModel(store).Some? <==> LegacyPath in store && store[LegacyPath].Pickle?
    ensures LoadModel(store).Some? ==> LoadModel(store).value == store[LegacyPath].bundle
  {
  }

  /** Both paths missing: no bundle. */
  lemma BothMissingGivesNone(store: Store)
    requires PrimaryPath !in store && LegacyPath !in store
    ensures LoadModel(store) == None
  {
  }

  /** The exception `predict_priority` lets escape. */
  datatype PredictError =
    | KeyError(key: string)
    | AttributeError(attribute: string)

  /** A bundle that `predict_priority` can use without raising. */
  predicate Usable(b: Bundle) {
    && "model" in b && b["model"].Classifier?
    && "vectorizer" in b && b["vectorizer"].Vectorizer?
  }

  /** What the bundle's classifier says about the normalized text. */
  function Classify(b: Bundle, text: string): Label
    requires Usable(b)
  {
    b["model"].predict(b["vectorizer"].transform(Normalize.Preprocess(text)))
  }

  /**
   * `predict_priority(content)`. A missing or empty bundle degrades to
   * 'medium'; a bundle missing a key, or holding something without the
   * method called on it, raises as the dictionary lookups and attribute
   * accesses do, in their order.
   */
  function PredictPriority(store: Store, content: string): (r: Result<Label, PredictError>)
    ensures (LoadModel(store).None? || LoadModel(store).value == map[]) ==> r == Ok(Medium)
    ensures LoadModel(store).Some? && Usable(LoadModel(store).value) ==>
      r == Ok(Classify(LoadModel(store).value, content))
    ensures r.Err? <==> LoadModel(store).Some? && LoadModel(store).value != map[] && !Usable(LoadModel(store).value)
  {
    var md := LoadModel(store);
    if md.None? || md.value == map[] then Ok(Medium)
    else Apply(md.value, Normalize.Preprocess(content))
  }

  /** The lookups and calls `predict_priority` makes on a non-empty bundle, given the normalized text. */
  function Apply(b: Bundle, processed: string): (r: Result<Label, PredictError>)
    ensures r.Err? <==> !Usable(b)
    ensures Usable(b) ==> r == Ok(b["model"].predict(b["vectorizer"].transform(processed)))
  {
    if "model" !in b then Err(KeyError("model"))
    else if "vectorizer" !in b then Err(KeyError("vectorizer"))
    else
      var model, vectorizer := b["model"], b["vectorizer"];
      if !vectorizer.Vectorizer? then Err(AttributeError("transform"))
      else if !model.Classifier? then Err(AttributeError("predict"))
      else Ok(model.predict(vectorizer.transform(processed)))
  }

  /** The error raised names the first lookup that fails. */
  lemma PredictErrorOrder(store: Store, content: string)
    requires LoadModel(store).Some? && LoadModel(store).value != map[]
    ensures var b := LoadModel(store).value;
      var r := PredictPriority(store, content);
      && ("model" !in b ==> r == Err(KeyError("model")))
      && ("model" in b && "vectorizer" !in b ==> r == Err(KeyError("vectorizer")))
      && ("model" in b && "vectorizer" in b && !b["vectorizer"].Vectorizer? ==> r == Err(AttributeError("transform")))
      && ("model" in b && "vectorizer" in b && b["vectorizer"].Vectorizer? && !b["model"].Classifier?
          ==> r == Err(AttributeError("predict")))
  {
  }

  /** The prediction depends on the content only through its normalization. */
  lemma SameNormalizationSameLabel(store: Store, c1: string, c2: string)
    requires Normalize.Preprocess(c1) == Normalize.Preprocess(c2)
    ensures PredictPriority(store, c1) == PredictPriority(store, c2)
  {
    var md := LoadModel(store);
    if md.Some? && md.value != map[] {
      assert PredictPriority(store, c1) == Apply(md.value, Normalize.Preprocess(c1));
      assert PredictPriority(store, c2) == Apply(md.value, Normalize.Preprocess(c2));
    }
  }

  /** So predicting on already normalized text changes nothing. */
  lemma PredictOnNormalizedText(store: Store, content: string)
    ensures PredictPriority(store, Normalize.Preprocess(content)) == PredictPriority(store, content)
  {
    Normalize.PreprocessIdempotent(content);
    SameNormalizationSameLabel(store, Normalize.Preprocess(content), content);
  }
}
