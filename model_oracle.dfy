/** The hosted text model behind a Genkit prompt, taken as an oracle: awaiting the prompt either
    throws or resolves with an `output` that may be missing (Genkit yields `null` when the model's
    answer cannot be read as the declared output schema). */
module ModelOracle {
  import opened Wrappers

  datatype ModelCall<T> = Threw(message: string) | Resolved(output: Option<T>)
}
