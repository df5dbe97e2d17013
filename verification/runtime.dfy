/** The pieces of the Python runtime the emulator leans on: list subscripts
    (a negative index counts from the back, anything else out of range is an
    IndexError) and the exceptions a step or the loader can raise. */
module Runtime {

  datatype Option<+T> = None | Some(value: T)

  /** The cell a valid Python subscript `i` denotes in a list of length `n`. */
  function Wrap(n: nat, i: int): (k: nat)
    requires -(n as int) <= i < n
    ensures k < n
    ensures i >= 0 ==> k == i
    ensures i < 0 ==> k + (-i) == n
  {
    if i >= 0 then i else n + i
  }

  /** `xs[i]` for a list of length `n`: the cell it denotes, or None for an IndexError. */
  function Slot(n: nat, i: int): (r: Option<nat>)
    ensures r.Some? <==> -(n as int) <= i < n
    ensures r.Some? ==> r.value == Wrap(n, i)
  {
    if -(n as int) <= i < n then Some(Wrap(n, i)) else None
  }

  /** The exceptions that end a run. None of them is caught by the program. */
  datatype Fault =
    | RamIndex(index: int)          // IndexError on the 256-cell memory list
    | RegIndex(index: int)          // IndexError on the 8-entry register list
    | NotBinary(text: string)       // ValueError from int(text, 2) in the loader
    | UnsupportedAluOp(op: string)  // the Exception raised by alu

  datatype Result<+T> = Ok(value: T) | Err(fault: Fault) {

    predicate IsFailure() {
      Err?
    }

    function PropagateFailure<U>(): Result<U>
      requires Err?
    {
      Err(fault)
    }

    function Extract(): T
      requires Ok?
    {
      value
    }
  }
}
