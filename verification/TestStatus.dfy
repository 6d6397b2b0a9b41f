/** Test statuses in the order of their declaration, which is the order of severity. */
module TestStatus {

  datatype Status = PASS | SKIP | PASS_WITH_MEMORY_LEAK | MEMORY_LIMIT_EXCEEDED | TOO_SLOW | TIMEOUT | FAIL | PENDING

  function Severity(s: Status): nat {
    match s
    case PASS => 0
    case SKIP => 1
    case PASS_WITH_MEMORY_LEAK => 2
    case MEMORY_LIMIT_EXCEEDED => 3
    case TOO_SLOW => 4
    case TIMEOUT => 5
    case FAIL => 6
    case PENDING => 7
  }

  lemma InOrderOfSeverity()
    ensures Severity(PASS) < Severity(SKIP) < Severity(PASS_WITH_MEMORY_LEAK) < Severity(MEMORY_LIMIT_EXCEEDED)
    ensures Severity(MEMORY_LIMIT_EXCEEDED) < Severity(TOO_SLOW) < Severity(TIMEOUT)
    ensures Severity(TIMEOUT) < Severity(FAIL) < Severity(PENDING)
  {
  }
}
