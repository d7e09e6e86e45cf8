// src/nodes/llm/_experiment_design.py: the ensemble's design is an experiment design with the base
// experiments the node itself resolved as a ninth key.
module EnsembleDesigns {
  import opened Common
  import opened Ensemble
  import opened ExperimentDesign
  import opened FamilyTables
  import opened JsonValues
  import opened Pipeline
  import opened SpecialistTables

  const BASE_KEY := "base_experiments"

  // One entry of the list; its other keys are dropped.
  function BaseEntry(value: Value): Option<BaseExperiment> {
    if !value.Obj? then None
    else
      var id, oof := Lookup(value.dict, "experiment_id"), Lookup(value.dict, "oof_path");
      if id.Str? && id.s != "" && oof.Str? && oof.s != "" then Some(BaseExperiment(id.s, oof.s)) else None
  }

  function BaseEntries(items: seq<Value>): Option<seq<BaseExperiment>> {
    if items == [] then Some([])
    else
      match (BaseEntry(items[0]), BaseEntries(items[1..]))
      case (Some(entry), Some(rest)) => Some([entry] + rest)
      case _ => None
  }

  // _validate_base_experiments on the value as injected.
  ghost function ReadBase(value: Value): Option<seq<BaseExperiment>> {
    if value.List? && value.items != [] then
      match BaseEntries(value.items)
      case None => None
      case Some(base) => if DistinctOof(base) then Some(base) else None
    else None
  }

  function EntryJson(entry: BaseExperiment): Value {
    Obj(map["experiment_id" := Str(entry.experimentId), "oof_path" := Str(entry.oofPath)])
  }

  function EntriesJson(base: seq<BaseExperiment>): seq<Value> {
    if base == [] then [] else [EntryJson(base[0])] + EntriesJson(base[1..])
  }

  function BaseJson(base: seq<BaseExperiment>): Value {
    List(EntriesJson(base))
  }

  datatype EnsembleDesign = EnsembleDesign(design: Design, base: seq<BaseExperiment>)

  // validate_ensemble_design
  ghost function ValidateEnsemble(data: Dict, specialist: string, allowed: Families, ref: string, base: Value)
    : Option<EnsembleDesign>
  {
    match (ValidateDesign(data, specialist, allowed, ref), ReadBase(base))
    case (Some(design), Some(entries)) => Some(EnsembleDesign(design, entries))
    case _ => None
  }

  // The object written: exactly the nine ENSEMBLE_DESIGN_KEYS.
  function EnsembleJson(e: EnsembleDesign): Dict {
    DesignJson(e.design)[BASE_KEY := BaseJson(e.base)]
  }

  // --- the base experiments --------------------------------------------------------

  ghost predicate SoundBase(base: seq<BaseExperiment>) {
    base != [] && Filled(base) && DistinctOof(base)
  }

  lemma EntryReadsBack(entry: BaseExperiment)
    requires entry.experimentId != "" && entry.oofPath != ""
    ensures BaseEntry(EntryJson(entry)) == Some(entry)
  {
    assert "experiment_id"[0] != "oof_path"[0];
  }

  lemma {:induction false} EntriesReadBack(base: seq<BaseExperiment>)
    requires Filled(base)
    ensures BaseEntries(EntriesJson(base)) == Some(base) && |EntriesJson(base)| == |base|
  {
    if base != [] {
      EntryReadsBack(base[0]);
      assert Filled(base[1..]);
      EntriesReadBack(base[1..]);
      var items := EntriesJson(base);
      assert items[1..] == EntriesJson(base[1..]);
      assert [base[0]] + base[1..] == base;
      hide BaseEntry, EntryJson;
    }
  }

  lemma {:induction false} EntriesAreFilled(items: seq<Value>)
    requires BaseEntries(items).Some?
    ensures Filled(BaseEntries(items).value) && |BaseEntries(items).value| == |items|
  {
    if items != [] {
      EntriesAreFilled(items[1..]);
    }
  }

  // What is accepted is sound, and what is sound is accepted as written.
  lemma BaseIsSoundIff(base: seq<BaseExperiment>)
    ensures ReadBase(BaseJson(base)) == Some(base) <==> SoundBase(base)
  {
    if Filled(base) {
      EntriesReadBack(base);
    } else if ReadBase(BaseJson(base)).Some? {
      EntriesAreFilled(EntriesJson(base));
    }
  }

  lemma AcceptedBaseIsSound(value: Value)
    ensures ReadBase(value).Some? ==> SoundBase(ReadBase(value).value)
  {
    if ReadBase(value).Some? {
      EntriesAreFilled(value.items);
    }
  }

  // --- the ninth key ---------------------------------------------------------------

  lemma NinthKeyIsIgnored(data: Dict, value: Value)
    ensures RedefinesCv(data[BASE_KEY := value]) <==> RedefinesCv(data)
    ensures forall key :: key != BASE_KEY ==> Lookup(data[BASE_KEY := value], key) == Lookup(data, key)
  {
    var extended := data[BASE_KEY := value];
    assert BASE_KEY[0] == 'b';
    assert BASE_KEY !in FORBIDDEN_CV_KEYS;
    if NamesCv(Obj(data)) {
      var k :| k in data && k in FORBIDDEN_CV_KEYS;
      assert k in extended;
    }
    assert Lookup(extended, "search_space") == Lookup(data, "search_space");
    assert Lookup(extended, "fixed_params") == Lookup(data, "fixed_params");
  }

  // Whatever a reply or a written design says under the ninth key, the eight others decide alone.
  lemma DesignIgnoresNinthKey(data: Dict, value: Value, specialist: string, allowed: Families, ref: string)
    ensures ValidateDesign(data[BASE_KEY := value], specialist, allowed, ref) == ValidateDesign(data, specialist, allowed, ref)
  {
    NinthKeyIsIgnored(data, value);
    hide RedefinesCv, Assemble, NormalizeFamily, ValidateSearchSpace, FixedParams, ValidatePreprocessing, ValidateRationale;
    assert BASE_KEY[0] == 'b';
  }

  // The ensemble's validator is a fixpoint on its own output, all nine keys of it.
  lemma EnsembleDesignIsFixpoint(data: Dict, specialist: string, ref: string, base: Value)
    ensures
      var e := ValidateEnsemble(data, specialist, Named(ENSEMBLE), ref, base);
      e.Some? ==>
        ValidateEnsemble(EnsembleJson(e.value), specialist, Named(ENSEMBLE), ref, Lookup(EnsembleJson(e.value), BASE_KEY)) == e
  {
    SpecialistDesignIsFixpoint(Ensembling, data, specialist, ref);
    AcceptedBaseIsSound(base);
    hide ValidateDesign, DesignJson, ReadBase, SoundBase, Named, BaseJson;
    var e := ValidateEnsemble(data, specialist, Named(ENSEMBLE), ref, base);
    if e.Some? {
      BaseIsSoundIff(e.value.base);
      DesignIgnoresNinthKey(DesignJson(e.value.design), BaseJson(e.value.base), specialist, Named(ENSEMBLE), ref);
    }
  }

  // At any point of any run whose out-of-fold files still pass coder's check, the ensemble's design is
  // accepted exactly when its eight keys are, and then names every experiment so far.
  lemma RunDesignIsAccepted(max: int, root: seq<string>, outside: nat -> Outside, n: nat, fields: OofFields,
                            data: Dict, specialist: string, allowed: Families, ref: string)
    requires max > 0 && RunAfter(max, root, outside, n).Ok?
    requires CanBeEnsembled(RunAfter(max, root, outside, n).value.world.state.experiments, fields, root)
    ensures
      var base := BaseExperiments(RunAfter(max, root, outside, n).value.world.state.experiments, fields, root);
      ValidateEnsemble(data, specialist, allowed, ref, BaseJson(base)) ==
      match ValidateDesign(data, specialist, allowed, ref)
      case Some(design) => Some(EnsembleDesign(design, base))
      case None => None
  {
    RunCanBeEnsembled(max, root, outside, n, fields);
    hide *;
    BaseIsSoundIff(BaseExperiments(RunAfter(max, root, outside, n).value.world.state.experiments, fields, root));
  }
}
