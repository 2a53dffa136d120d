/** Small types shared by the models. */
module Basics {

  datatype Option<+T> = None | Some(value: T)

  /** The empty or one-element sequence an option stands for. */
  function OptionSeq<T>(o: Option<T>): seq<T> {
    match o
    case None => []
    case Some(x) => [x]
  }
}
