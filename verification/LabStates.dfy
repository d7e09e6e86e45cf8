// src/state.py: the state every node reads and writes, and the JSON values nodes read from disk.
module LabStates {
  import opened Common

  // Finite doubles are compared and negated, never added, in what follows. Ordered by value (both
  // zeros together) they are the integers from -MAX_RANK to MAX_RANK, and negation is negation.
  const MAX_RANK: int := 0x7FEF_FFFF_FFFF_FFFF
  type Finite = r: int | -MAX_RANK <= r <= MAX_RANK

  // best_score: a finite double, or the float("-inf") it starts as.
  datatype Best = NegInf | Score(value: Finite)

  datatype Direction = Minimize | Maximize

  // A parsed JSON value. A number keeps only its rank, None for Infinity and NaN; JHuge is an integer
  // past every double, which float() and math.isfinite answer with an OverflowError.
  datatype Json =
    | JNull
    | JBool(b: bool)
    | JNumber(rank: Option<Finite>)
    | JHuge
    | JString(s: string)
    | JArray(items: seq<Json>)
    | JObject(fields: map<string, Json>)

  type Fields = map<string, Json>

  function Get(fields: Fields, key: string): Json {
    if key in fields then fields[key] else JNull
  }

  datatype Phase =
    | Understanding
    | Research
    | Baseline
    | Design
    | Implementation
    | Evaluation
    | Delivery

  // One element of `experiments`.
  datatype Entry = Entry(id: string, path: string, cvScore: Finite, iteration: nat, model: string)

  // A field of the graph state as one node hands it to the next; only the experiments are looked into.
  datatype FieldValue = Plain(text: string) | Recorded(experiments: seq<Entry>)

  type StateFields = map<string, FieldValue>

  datatype LabState = LabState(
    phase: Option<Phase>,
    currentIteration: nat,
    maxIterations: int,
    iterationsWithoutImprovement: nat,
    bestScore: Best,
    lastScore: Finite,
    experiments: seq<Entry>,
    bestExperimentPath: string,
    // The path and text fields no decision below reads.
    pointers: map<string, string>)

  function NewState(maxIterations: int): LabState {
    LabState(None, 0, maxIterations, 0, NegInf, 0, [], "", map[])
  }
}
