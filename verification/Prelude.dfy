/** Vocabulary shared by every module of the model. */
module Prelude {

  datatype Option<+T> = None | Some(value: T)

  /** The three instance roles of the cluster. */
  datatype Role = Prefill | Decode | Hybrid
}
