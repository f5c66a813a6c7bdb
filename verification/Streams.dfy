/** Asynchronous sources as sequences of steps. */
module Streams {
  import opened Wrappers
  import opened Iterators

  /** What one poll of a source finds. A source whose steps are used up has ended, for good. */
  datatype Step<+T> = Piece(value: T) | NotYet | Failure(code: int)

  class StreamSource<T> {
    var steps: seq<Step<T>>

    constructor (steps: seq<Step<T>>)
      ensures this.steps == steps
    {
      this.steps := steps;
    }

    method PollNext() returns (r: Poll<Option<Result<T, WebmetroError>>>)
      modifies this
      ensures old(steps) == [] ==> r == Ready(None) && steps == []
      ensures old(steps) != [] ==> steps == old(steps)[1..]
      ensures old(steps) != [] ==>
                r == match old(steps)[0]
                     case Piece(value) => Ready(Some(Ok(value)))
                     case NotYet => Pending
                     case Failure(code) => Ready(Some(Err(SourceFailure(code))))
    {
      if steps == [] {
        return Ready(None);
      }
      match steps[0] {
        case Piece(value) => r := Ready(Some(Ok(value)));
        case NotYet => r := Pending;
        case Failure(code) => r := Ready(Some(Err(SourceFailure(code))));
      }
      steps := steps[1..];
    }
  }
}
