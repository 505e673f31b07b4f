/** Option and Result values, and the failures the distribution builder raises.
    Each Error constructor names the Python exception class the program raises
    for that situation. */
module Outcomes {

  datatype Option<+T> = None | Some(value: T)

  datatype Result<+T> = Ok(value: T) | Err(error: Error) {
    predicate IsFailure() { Err? }

    function PropagateFailure<U>(): Result<U>
      requires Err?
    {
      Err(error)
    }

    function Extract(): T
      requires Ok?
    {
      value
    }
  }

  datatype Error =
    | FileNotFound(path: string)          // OSError: the one CLI argument is not a file
    | TooManyArguments(args: seq<string>) // ValueError: more than one CLI argument
    | DirectoryNotFound(path: string)     // OSError from listing a missing directory
    | NoMatchingFile(pattern: string)     // OSError: no directory entry matched
    | NotABoolean(value: string)          // ValueError from the boolean option reader
    | CannotChdir(path: string)           // OSError from changing into a missing directory
    | BuildToolFailed                     // whatever a setup.py run or removing the egg-info directory raised
    | CalleeHasNoId                       // AttributeError: a top-level call's callee is not a name
    | NoSetupCall                         // AttributeError: keywords looked up on None
    | NameKeywordMissing                  // KeyError: setup() has no `name` keyword
    | NameNotString                       // AttributeError: the `name` value is not a string literal
    | InvalidFormat(format: string)       // ValueError: unknown bundle format
    | ArchiveInputMissing(path: string)   // OSError: a path written to the archive does not exist
}
