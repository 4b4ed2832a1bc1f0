/** The exception policy a test attaches to a mock collector. */
module Policies {
  import opened Wrappers

  /**
   * The error a write must fail with, and the error a flush must fail with;
   * `None` means the operation runs normally.
   */
  datatype TestExceptionPolicy<+E> = TestExceptionPolicy(writeException: Option<E>, flushException: Option<E>)

  /** A freshly constructed policy: no failures injected. */
  function NoFailures<E>(): (p: TestExceptionPolicy<E>)
    ensures p.writeException.None? && p.flushException.None?
  {
    TestExceptionPolicy(None, None)
  }
}
