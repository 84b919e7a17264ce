/** Failure-compatible result types shared by every module of the model.
    Each `Err` stands for a panic of the original program (`assert!`,
    `expect`), named after the condition that triggers it. */
module Results {

  datatype Error =
    | NotEnoughWeights   // Neuron::from_weights: "got not enough weights"
    | TooManyWeights     // Network::from_weights: weights left over
    | EmptyPopulation    // choose_weighted on an empty slice
    | InvalidFitness     // choose_weighted on a negative weight
    | AllFitnessZero     // choose_weighted when every weight is zero

  datatype Option<+T> = None | Some(value: T)

  datatype Result<+T> = Ok(value: T) | Err(error: Error) {
    predicate IsFailure() { Err? }

    function PropagateFailure<U>(): Result<U>
      requires Err?
    {
      Err(error)
    }

    function Extract(): T
      requires Ok?
    {
      value
    }
  }
}
