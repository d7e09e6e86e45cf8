// The model-family tables of the five specialists, word by word. The aliases are listed in short runs,
// because telling whether words are plain costs the verifier more than linearly in a run's length.
module SpecialistTables {
  import opened Common
  import opened ExperimentDesign
  import opened FamilyTables
  import opened JsonValues

  // --- src/nodes/llm/classical_ml_specialist.py ---

  const XGBOOST := ["xgboost"]
  const LIGHTGBM := ["lightgbm"]
  const CATBOOST := ["catboost"]
  const EXTRA_TREES := ["extra", "trees"]

  const XGBOOST_ALIASES: seq<seq<string>> := [
    ["xgboost"], ["xgb"]]

  const LIGHTGBM_ALIASES: seq<seq<string>> := [
    ["lightgbm"], ["lgbm"], ["lgb"], ["light", "gbm"]]

  const CATBOOST_ALIASES: seq<seq<string>> := [
    ["catboost"], ["cat", "boost"]]

  const EXTRA_TREES_ALIASES: seq<seq<string>> := [
    ["extra", "trees"], ["extratrees"], ["extremely", "randomized", "trees"]]

  const CLASSICAL_ML: WordTable := [
    Family(XGBOOST, XGBOOST_ALIASES),
    Family(LIGHTGBM, LIGHTGBM_ALIASES),
    Family(CATBOOST, CATBOOST_ALIASES),
    Family(EXTRA_TREES, EXTRA_TREES_ALIASES)
  ]

  lemma XgboostIsPlain()
    ensures AllPhrases(XGBOOST_ALIASES)
  {
  }

  lemma XgboostIsApart()
    ensures AllForeign(XGBOOST_ALIASES, LIGHTGBM + CATBOOST + EXTRA_TREES)
  {
  }

  lemma LightgbmIsPlain()
    ensures AllPhrases(LIGHTGBM_ALIASES)
  {
  }

  lemma LightgbmIsApart()
    ensures AllForeign(LIGHTGBM_ALIASES, XGBOOST + CATBOOST + EXTRA_TREES)
  {
  }

  lemma CatboostIsPlain()
    ensures AllPhrases(CATBOOST_ALIASES)
  {
  }

  lemma CatboostIsApart()
    ensures AllForeign(CATBOOST_ALIASES, XGBOOST + LIGHTGBM + EXTRA_TREES)
  {
  }

  lemma ExtraTreesIsPlain()
    ensures AllPhrases(EXTRA_TREES_ALIASES)
  {
  }

  lemma ExtraTreesIsApart()
    ensures AllForeign(EXTRA_TREES_ALIASES, XGBOOST + LIGHTGBM + CATBOOST)
  {
  }

  lemma ClassicalMlNamesItself()
    ensures SelfNaming(CLASSICAL_ML)
  {
    XgboostIsPlain();
    XgboostIsApart();
    LightgbmIsPlain();
    LightgbmIsApart();
    CatboostIsPlain();
    CatboostIsApart();
    ExtraTreesIsPlain();
    ExtraTreesIsApart();
    hide IsPhrase, Foreign, SelfNaming;
    SelfNamingByWords(CLASSICAL_ML, [XGBOOST, LIGHTGBM, CATBOOST, EXTRA_TREES],
      [LIGHTGBM + CATBOOST + EXTRA_TREES,
       XGBOOST + CATBOOST + EXTRA_TREES,
       XGBOOST + LIGHTGBM + EXTRA_TREES,
       XGBOOST + LIGHTGBM + CATBOOST]);
  }

  // --- src/nodes/llm/deep_learning_specialist.py ---

  const TABNET := ["tabnet"]
  const NODE := ["node"]
  const MLP := ["mlp"]

  const TABNET_ALIASES: seq<seq<string>> := [
    ["tabnet"], ["tab", "net"]]

  const NODE_1: seq<seq<string>> := [
    ["node"], ["neural", "oblivious", "decision", "ensembles"]]

  const NODE_2: seq<seq<string>> := [
    ["neural", "oblivious", "decision", "ensemble"]]

  const MLP_1: seq<seq<string>> := [
    ["mlp"], ["multilayer", "perceptron"], ["multi", "layer", "perceptron"]]

  const MLP_2: seq<seq<string>> := [
    ["feedforward", "network"], ["feed", "forward", "network"]]

  const DEEP_LEARNING: WordTable := [
    Family(TABNET, TABNET_ALIASES),
    Family(NODE, NODE_1 + NODE_2),
    Family(MLP, MLP_1 + MLP_2)
  ]

  lemma TabnetIsPlain()
    ensures AllPhrases(TABNET_ALIASES)
  {
  }

  lemma TabnetIsApart()
    ensures AllForeign(TABNET_ALIASES, NODE + MLP)
  {
  }

  lemma Node1IsPlain()
    ensures AllPhrases(NODE_1)
  {
  }

  lemma Node2IsPlain()
    ensures AllPhrases(NODE_2)
  {
  }

  lemma NodeIsApart()
    ensures AllForeign(NODE_1 + NODE_2,
                       TABNET + MLP)
  {
  }

  lemma Mlp1IsPlain()
    ensures AllPhrases(MLP_1)
  {
  }

  lemma Mlp2IsPlain()
    ensures AllPhrases(MLP_2)
  {
  }

  lemma MlpIsApart()
    ensures AllForeign(MLP_1 + MLP_2,
                       TABNET + NODE)
  {
  }

  lemma DeepLearningNamesItself()
    ensures SelfNaming(DEEP_LEARNING)
  {
    TabnetIsPlain();
    TabnetIsApart();
    Node1IsPlain();
    Node2IsPlain();
    NodeIsApart();
    Mlp1IsPlain();
    Mlp2IsPlain();
    MlpIsApart();
    hide IsPhrase, Foreign, SelfNaming;
    SelfNamingByWords(DEEP_LEARNING, [TABNET, NODE, MLP],
      [NODE + MLP,
       TABNET + MLP,
       TABNET + NODE]);
  }

  // --- src/nodes/llm/nlp_specialist.py ---

  const TFIDF_LINEAR := ["tfidf", "linear"]
  const SENTENCE_EMBEDDINGS := ["sentence", "embeddings"]
  const TRANSFORMER_FINETUNE := ["transformer", "finetune"]

  const TFIDF_ALIASES: seq<seq<string>> := [
    ["tfidf", "linear"], ["tfidf"], ["tf", "idf"], ["bag", "of", "words"], ["bow"]]

  const SENTENCE_1: seq<seq<string>> := [
    ["sentence", "embeddings"], ["sentence", "transformer"]]

  const SENTENCE_2: seq<seq<string>> := [
    ["sentence", "transformers"], ["sbert"], ["frozen", "embeddings"]]

  const FINETUNE_1: seq<seq<string>> := [
    ["transformer", "finetune"], ["transformer", "fine", "tune"]]

  const FINETUNE_2: seq<seq<string>> := [
    ["transformer", "fine", "tuning"], ["fine", "tune", "transformer"]]

  const FINETUNE_3: seq<seq<string>> := [
    ["bert", "finetune"], ["bert", "fine", "tuning"], ["distilbert", "finetune"]]

  const FINETUNE_4: seq<seq<string>> := [
    ["distilbert", "fine", "tuning"], ["fine", "tune"], ["fine", "tuned"], ["fine", "tuning"]]

  const FINETUNE_5: seq<seq<string>> := [
    ["finetune"], ["finetuned"], ["finetuning"]]

  const NLP: WordTable := [
    Family(TFIDF_LINEAR, TFIDF_ALIASES),
    Family(SENTENCE_EMBEDDINGS, SENTENCE_1 + SENTENCE_2),
    Family(TRANSFORMER_FINETUNE, FINETUNE_1 + FINETUNE_2 + FINETUNE_3 + FINETUNE_4 + FINETUNE_5)
  ]

  lemma TfidfIsPlain()
    ensures AllPhrases(TFIDF_ALIASES)
  {
  }

  lemma TfidfIsApart()
    ensures AllForeign(TFIDF_ALIASES, SENTENCE_EMBEDDINGS + TRANSFORMER_FINETUNE)
  {
  }

  lemma Sentence1IsPlain()
    ensures AllPhrases(SENTENCE_1)
  {
  }

  lemma Sentence2IsPlain()
    ensures AllPhrases(SENTENCE_2)
  {
  }

  lemma SentenceIsApart()
    ensures AllForeign(SENTENCE_1 + SENTENCE_2,
                       TFIDF_LINEAR + TRANSFORMER_FINETUNE)
  {
  }

  lemma Finetune1IsPlain()
    ensures AllPhrases(FINETUNE_1)
  {
  }

  lemma Finetune2IsPlain()
    ensures AllPhrases(FINETUNE_2)
  {
  }

  lemma Finetune3IsPlain()
    ensures AllPhrases(FINETUNE_3)
  {
  }

  lemma Finetune4IsPlain()
    ensures AllPhrases(FINETUNE_4)
  {
  }

  lemma Finetune5IsPlain()
    ensures AllPhrases(FINETUNE_5)
  {
  }

  lemma FinetuneFirstApart()
    ensures AllForeign(FINETUNE_1 + FINETUNE_2 + FINETUNE_3,
                       TFIDF_LINEAR + SENTENCE_EMBEDDINGS)
  {
  }

  lemma FinetuneRestApart()
    ensures AllForeign(FINETUNE_4 + FINETUNE_5,
                       TFIDF_LINEAR + SENTENCE_EMBEDDINGS)
  {
  }

  lemma NlpNamesItself()
    ensures SelfNaming(NLP)
  {
    TfidfIsPlain();
    TfidfIsApart();
    Sentence1IsPlain();
    Sentence2IsPlain();
    SentenceIsApart();
    Finetune1IsPlain();
    Finetune2IsPlain();
    Finetune3IsPlain();
    Finetune4IsPlain();
    Finetune5IsPlain();
    FinetuneFirstApart();
    FinetuneRestApart();
    hide IsPhrase, Foreign, SelfNaming;
    SelfNamingByWords(NLP, [TFIDF_LINEAR, SENTENCE_EMBEDDINGS, TRANSFORMER_FINETUNE],
      [SENTENCE_EMBEDDINGS + TRANSFORMER_FINETUNE,
       TFIDF_LINEAR + TRANSFORMER_FINETUNE,
       TFIDF_LINEAR + SENTENCE_EMBEDDINGS]);
  }

  // --- src/nodes/llm/timeseries_specialist.py ---

  const ARIMA := ["arima"]
  const PROPHET := ["prophet"]
  const EXPONENTIAL_SMOOTHING := ["exponential", "smoothing"]
  const GRADIENT_BOOSTING_LAGS := ["gradient", "boosting", "lags"]
  const LINEAR_LAGS := ["linear", "lags"]

  const ARIMA_1: seq<seq<string>> := [
    ["arima"], ["arimax"], ["sarima"], ["sarimax"], ["seasonal", "arima"], ["auto", "arima"]]

  const ARIMA_2: seq<seq<string>> := [
    ["autoarima"], ["arma"], ["ar"], ["box", "jenkins"]]

  const PROPHET_1: seq<seq<string>> := [
    ["prophet"], ["fbprophet"], ["fb", "prophet"], ["neuralprophet"]]

  const PROPHET_2: seq<seq<string>> := [
    ["neural", "prophet"]]

  const SMOOTHING_1: seq<seq<string>> := [
    ["exponential", "smoothing"], ["exponentialsmoothing"], ["ets"]]

  const SMOOTHING_2: seq<seq<string>> := [
    ["holt", "winters"], ["holtwinters"], ["holt"], ["ses"]]

  const BOOSTING_1: seq<seq<string>> := [
    ["gradient", "boosting", "lags"], ["gradientboostinglags"]]

  const BOOSTING_2: seq<seq<string>> := [
    ["gradient", "boosting"], ["gradientboosting"]]

  const BOOSTING_3: seq<seq<string>> := [
    ["gradientboostingregressor"], ["gradient", "boosted", "trees"]]

  const BOOSTING_4: seq<seq<string>> := [
    ["gradient", "boosted", "regression", "trees"], ["boosted", "trees"], ["gbm"]]

  const BOOSTING_5: seq<seq<string>> := [
    ["gbdt"], ["gbrt"], ["xgboost"], ["xgb"], ["xgbregressor"], ["lightgbm"]]

  const BOOSTING_6: seq<seq<string>> := [
    ["light", "gbm"], ["lgbm"], ["lgb"], ["lgbmregressor"], ["catboost"]]

  const BOOSTING_7: seq<seq<string>> := [
    ["hist", "gradient", "boosting"], ["histgradientboosting"]]

  const BOOSTING_8: seq<seq<string>> := [
    ["histgradientboostingregressor"]]

  const LINEAR_1: seq<seq<string>> := [
    ["linear", "lags"], ["linearlags"], ["linear", "lag"], ["linear", "regression"]]

  const LINEAR_2: seq<seq<string>> := [
    ["linearregression"], ["linear", "model"], ["ridge"], ["lasso"], ["elastic", "net"]]

  const LINEAR_3: seq<seq<string>> := [
    ["elasticnet"], ["ols"], ["least", "squares"], ["leastsquares"]]

  const TIMESERIES: WordTable := [
    Family(ARIMA, ARIMA_1 + ARIMA_2),
    Family(PROPHET, PROPHET_1 + PROPHET_2),
    Family(EXPONENTIAL_SMOOTHING, SMOOTHING_1 + SMOOTHING_2),
    Family(GRADIENT_BOOSTING_LAGS, BOOSTING_1 + BOOSTING_2 + BOOSTING_3 + BOOSTING_4 + BOOSTING_5 + BOOSTING_6 +
           BOOSTING_7 + BOOSTING_8),
    Family(LINEAR_LAGS, LINEAR_1 + LINEAR_2 + LINEAR_3)
  ]

  lemma Arima1IsPlain()
    ensures AllPhrases(ARIMA_1)
  {
  }

  lemma Arima2IsPlain()
    ensures AllPhrases(ARIMA_2)
  {
  }

  lemma ArimaIsApart()
    ensures AllForeign(ARIMA_1 + ARIMA_2,
                       PROPHET + EXPONENTIAL_SMOOTHING + GRADIENT_BOOSTING_LAGS + LINEAR_LAGS)
  {
  }

  lemma Prophet1IsPlain()
    ensures AllPhrases(PROPHET_1)
  {
  }

  lemma Prophet2IsPlain()
    ensures AllPhrases(PROPHET_2)
  {
  }

  lemma ProphetIsApart()
    ensures AllForeign(PROPHET_1 + PROPHET_2,
                       ARIMA + EXPONENTIAL_SMOOTHING + GRADIENT_BOOSTING_LAGS + LINEAR_LAGS)
  {
  }

  lemma Smoothing1IsPlain()
    ensures AllPhrases(SMOOTHING_1)
  {
  }

  lemma Smoothing2IsPlain()
    ensures AllPhrases(SMOOTHING_2)
  {
  }

  lemma SmoothingIsApart()
    ensures AllForeign(SMOOTHING_1 + SMOOTHING_2,
                       ARIMA + PROPHET + GRADIENT_BOOSTING_LAGS + LINEAR_LAGS)
  {
  }

  lemma Boosting1IsPlain()
    ensures AllPhrases(BOOSTING_1)
  {
  }

  lemma Boosting2IsPlain()
    ensures AllPhrases(BOOSTING_2)
  {
  }

  lemma Boosting3IsPlain()
    ensures AllPhrases(BOOSTING_3)
  {
  }

  lemma Boosting4IsPlain()
    ensures AllPhrases(BOOSTING_4)
  {
  }

  lemma Boosting5IsPlain()
    ensures AllPhrases(BOOSTING_5)
  {
  }

  lemma Boosting6IsPlain()
    ensures AllPhrases(BOOSTING_6)
  {
  }

  lemma Boosting7IsPlain()
    ensures AllPhrases(BOOSTING_7)
  {
  }

  lemma Boosting8IsPlain()
    ensures AllPhrases(BOOSTING_8)
  {
  }

  lemma BoostingFirstApart()
    ensures AllForeign(BOOSTING_1 + BOOSTING_2 + BOOSTING_3,
                       ARIMA + PROPHET + EXPONENTIAL_SMOOTHING + LINEAR_LAGS)
  {
  }

  lemma BoostingMiddleApart()
    ensures AllForeign(BOOSTING_4 + BOOSTING_5,
                       ARIMA + PROPHET + EXPONENTIAL_SMOOTHING + LINEAR_LAGS)
  {
  }

  lemma BoostingRestApart()
    ensures AllForeign(BOOSTING_6 + BOOSTING_7 + BOOSTING_8,
                       ARIMA + PROPHET + EXPONENTIAL_SMOOTHING + LINEAR_LAGS)
  {
  }

  lemma Linear1IsPlain()
    ensures AllPhrases(LINEAR_1)
  {
  }

  lemma Linear2IsPlain()
    ensures AllPhrases(LINEAR_2)
  {
  }

  lemma Linear3IsPlain()
    ensures AllPhrases(LINEAR_3)
  {
  }

  lemma LinearFirstApart()
    ensures AllForeign(LINEAR_1 + LINEAR_2,
                       ARIMA + PROPHET + EXPONENTIAL_SMOOTHING + GRADIENT_BOOSTING_LAGS)
  {
  }

  lemma LinearRestApart()
    ensures AllForeign(LINEAR_3, ARIMA + PROPHET + EXPONENTIAL_SMOOTHING + GRADIENT_BOOSTING_LAGS)
  {
  }

  lemma TimeseriesNamesItself()
    ensures SelfNaming(TIMESERIES)
  {
    Arima1IsPlain();
    Arima2IsPlain();
    ArimaIsApart();
    Prophet1IsPlain();
    Prophet2IsPlain();
    ProphetIsApart();
    Smoothing1IsPlain();
    Smoothing2IsPlain();
    SmoothingIsApart();
    Boosting1IsPlain();
    Boosting2IsPlain();
    Boosting3IsPlain();
    Boosting4IsPlain();
    Boosting5IsPlain();
    Boosting6IsPlain();
    Boosting7IsPlain();
    Boosting8IsPlain();
    BoostingFirstApart();
    BoostingMiddleApart();
    BoostingRestApart();
    Linear1IsPlain();
    Linear2IsPlain();
    Linear3IsPlain();
    LinearFirstApart();
    LinearRestApart();
    hide IsPhrase, Foreign, SelfNaming;
    SelfNamingByWords(TIMESERIES, [ARIMA, PROPHET, EXPONENTIAL_SMOOTHING, GRADIENT_BOOSTING_LAGS, LINEAR_LAGS],
      [PROPHET + EXPONENTIAL_SMOOTHING + GRADIENT_BOOSTING_LAGS + LINEAR_LAGS,
       ARIMA + EXPONENTIAL_SMOOTHING + GRADIENT_BOOSTING_LAGS + LINEAR_LAGS,
       ARIMA + PROPHET + GRADIENT_BOOSTING_LAGS + LINEAR_LAGS,
       ARIMA + PROPHET + EXPONENTIAL_SMOOTHING + LINEAR_LAGS,
       ARIMA + PROPHET + EXPONENTIAL_SMOOTHING + GRADIENT_BOOSTING_LAGS]);
  }

  // --- src/nodes/llm/ensemble_specialist.py ---

  const STACKING := ["stacking"]
  const BLENDING := ["blending"]
  const WEIGHTED_AVERAGE := ["weighted", "average"]

  const STACKING_1: seq<seq<string>> := [
    ["stacking"], ["stacked", "ensemble"], ["stack", "ensemble"]]

  const STACKING_2: seq<seq<string>> := [
    ["stacked", "generalization"], ["stackingregressor"]]

  const STACKING_3: seq<seq<string>> := [
    ["stackingclassifier"], ["stackingcvregressor"]]

  const STACKING_4: seq<seq<string>> := [
    ["stackingcvclassifier"], ["meta", "learner"], ["metalearner"]]

  const STACKING_5: seq<seq<string>> := [
    ["meta", "model"], ["metamodel"], ["super", "learner"], ["superlearner"]]

  const STACKING_6: seq<seq<string>> := [
    ["second", "level", "model"], ["second", "stage", "model"]]

  const BLENDING_1: seq<seq<string>> := [
    ["blending"], ["blend"], ["blended"], ["blends"], ["blended", "ensemble"]]

  const BLENDING_2: seq<seq<string>> := [
    ["holdout", "blend"], ["hold", "out", "blend"], ["holdout", "blending"]]

  const BLENDING_3: seq<seq<string>> := [
    ["weighted", "blend"], ["weighted", "blending"], ["linear", "blend"]]

  const BLENDING_4: seq<seq<string>> := [
    ["convex", "blend"]]

  const WEIGHTED_1: seq<seq<string>> := [
    ["weighted", "average"], ["weighted", "averaging"], ["weighted", "mean"]]

  const WEIGHTED_2: seq<seq<string>> := [
    ["weighted", "sum"], ["weight", "optimization"], ["optimal", "weights"]]

  const WEIGHTED_3: seq<seq<string>> := [
    ["learned", "weights"], ["tuned", "weights"], ["convex", "combination"]]

  const WEIGHTED_4: seq<seq<string>> := [
    ["linear", "combination", "of", "predictions"]]

  const ENSEMBLE: WordTable := [
    Family(STACKING, STACKING_1 + STACKING_2 + STACKING_3 + STACKING_4 + STACKING_5 + STACKING_6),
    Family(BLENDING, BLENDING_1 + BLENDING_2 + BLENDING_3 + BLENDING_4),
    Family(WEIGHTED_AVERAGE, WEIGHTED_1 + WEIGHTED_2 + WEIGHTED_3 + WEIGHTED_4)
  ]

  lemma Stacking1IsPlain()
    ensures AllPhrases(STACKING_1)
  {
  }

  lemma Stacking2IsPlain()
    ensures AllPhrases(STACKING_2)
  {
  }

  lemma Stacking3IsPlain()
    ensures AllPhrases(STACKING_3)
  {
  }

  lemma Stacking4IsPlain()
    ensures AllPhrases(STACKING_4)
  {
  }

  lemma Stacking5IsPlain()
    ensures AllPhrases(STACKING_5)
  {
  }

  lemma Stacking6IsPlain()
    ensures AllPhrases(STACKING_6)
  {
  }

  lemma StackingFirstApart()
    ensures AllForeign(STACKING_1 + STACKING_2 + STACKING_3,
                       BLENDING + WEIGHTED_AVERAGE)
  {
  }

  lemma StackingRestApart()
    ensures AllForeign(STACKING_4 + STACKING_5 + STACKING_6,
                       BLENDING + WEIGHTED_AVERAGE)
  {
  }

  lemma Blending1IsPlain()
    ensures AllPhrases(BLENDING_1)
  {
  }

  lemma Blending2IsPlain()
    ensures AllPhrases(BLENDING_2)
  {
  }

  lemma Blending3IsPlain()
    ensures AllPhrases(BLENDING_3)
  {
  }

  lemma Blending4IsPlain()
    ensures AllPhrases(BLENDING_4)
  {
  }

  lemma BlendingFirstApart()
    ensures AllForeign(BLENDING_1 + BLENDING_2,
                       STACKING + WEIGHTED_AVERAGE)
  {
  }

  lemma BlendingRestApart()
    ensures AllForeign(BLENDING_3 + BLENDING_4,
                       STACKING + WEIGHTED_AVERAGE)
  {
  }

  lemma Weighted1IsPlain()
    ensures AllPhrases(WEIGHTED_1)
  {
  }

  lemma Weighted2IsPlain()
    ensures AllPhrases(WEIGHTED_2)
  {
  }

  lemma Weighted3IsPlain()
    ensures AllPhrases(WEIGHTED_3)
  {
  }

  lemma Weighted4IsPlain()
    ensures AllPhrases(WEIGHTED_4)
  {
  }

  lemma WeightedIsApart()
    ensures AllForeign(WEIGHTED_1 + WEIGHTED_2 + WEIGHTED_3 + WEIGHTED_4,
                       STACKING + BLENDING)
  {
  }

  lemma EnsembleNamesItself()
    ensures SelfNaming(ENSEMBLE)
  {
    Stacking1IsPlain();
    Stacking2IsPlain();
    Stacking3IsPlain();
    Stacking4IsPlain();
    Stacking5IsPlain();
    Stacking6IsPlain();
    StackingFirstApart();
    StackingRestApart();
    Blending1IsPlain();
    Blending2IsPlain();
    Blending3IsPlain();
    Blending4IsPlain();
    BlendingFirstApart();
    BlendingRestApart();
    Weighted1IsPlain();
    Weighted2IsPlain();
    Weighted3IsPlain();
    Weighted4IsPlain();
    WeightedIsApart();
    hide IsPhrase, Foreign, SelfNaming;
    SelfNamingByWords(ENSEMBLE, [STACKING, BLENDING, WEIGHTED_AVERAGE],
      [BLENDING + WEIGHTED_AVERAGE,
       STACKING + WEIGHTED_AVERAGE,
       STACKING + BLENDING]);
  }

  // --- any of the five -------------------------------------------------------------

  datatype Specialist = ClassicalMl | DeepLearning | Nlp | Timeseries | Ensembling

  function TableOf(s: Specialist): WordTable {
    match s
    case ClassicalMl => CLASSICAL_ML
    case DeepLearning => DEEP_LEARNING
    case Nlp => NLP
    case Timeseries => TIMESERIES
    case Ensembling => ENSEMBLE
  }

  // Whatever design a specialist accepts it accepts again as written, unchanged.
  lemma SpecialistDesignIsFixpoint(s: Specialist, data: Dict, specialist: string, ref: string)
    ensures
      var d := ValidateDesign(data, specialist, Named(TableOf(s)), ref);
      d.Some? ==> ValidateDesign(DesignJson(d.value), specialist, Named(TableOf(s)), ref) == d
  {
    hide SelfNaming, ValidateDesign, DesignJson, Named;
    match s {
      case ClassicalMl => ClassicalMlNamesItself();
      case DeepLearning => DeepLearningNamesItself();
      case Nlp => NlpNamesItself();
      case Timeseries => TimeseriesNamesItself();
      case Ensembling => EnsembleNamesItself();
    }
    AcceptedDesignIsFixpoint(data, specialist, TableOf(s), ref);
  }
}
