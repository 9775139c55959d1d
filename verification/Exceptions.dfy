/**
  Python's exceptions, as far as the code tells them apart, and the outcome of
  a call.
 */
module Exceptions {

  // `ControlFlow` is LangGraph's bubbling signal and an ordinary `Exception` to Python, as are the
  // guardrail and policy blocks, the timeouts (`Timeout` is the library's own TimeoutException,
  // `BuiltinTimeout` Python's TimeoutError) and connection errors. `Cancelled` and `Fatal` are
  // BaseExceptions that `except Exception` does not catch.
  datatype ExcClass =
    | ControlFlow | Timeout | BuiltinTimeout | Connection | GuardrailBlock | PolicyBlock | Ordinary
    | Cancelled | Fatal

  datatype Exc = Exc(cls: ExcClass, tag: nat)

  predicate IsException(e: Exc) {
    e.cls != Cancelled && e.cls != Fatal
  }

  predicate IsControlFlow(e: Exc) {
    e.cls == ControlFlow || e.cls == Cancelled
  }

  predicate IsBlock(e: Exc) {
    e.cls == GuardrailBlock || e.cls == PolicyBlock
  }

  datatype Outcome<+V> = Returned(value: V) | Raised(exc: Exc)
}
