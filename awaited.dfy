/**
 * Requests a page handler awaits one after another inside a single `try`.
 * The HTTP client rejects a reply iff its HTTP status is not 2xx
 * (`Schema.ClientAccepts`), so the first rejected request throws, the requests after it are never sent, and the
 * `catch` runs instead of the code that follows the last request.
 */
module Awaited {
  /**
   * `answers[i]` is whether the backend accepts the i-th request the handler
   * sends; an answer the list lacks counts as a rejection.
   */
  predicate Accepted(answers: seq<bool>, i: nat) {
    i < |answers| && answers[i]
  }

  predicate AllAccepted(answers: seq<bool>, n: nat) {
    forall i :: 0 <= i < n ==> Accepted(answers, i)
  }

  /** The position of the first rejection among the first `n` requests, or `n` when there is none. */
  function FirstRejection(answers: seq<bool>, n: nat): (k: nat)
    ensures k <= n
    ensures forall i :: 0 <= i < k ==> Accepted(answers, i)
    ensures k < n ==> !Accepted(answers, k)
  {
    if n == 0 then 0
    else
      var k := FirstRejection(answers, n - 1);
      if k < n - 1 then k else if Accepted(answers, n - 1) then n else n - 1
  }

  /**
   * The requests actually sent: a prefix of the planned ones in which every
   * request but the last was accepted. It is the whole plan when every
   * request is accepted, and otherwise ends with the first rejected one.
   */
  function SentUntilRejected<T>(rs: seq<T>, answers: seq<bool>): (sent: seq<T>)
    ensures |sent| <= |rs| && sent == rs[..|sent|]
    ensures forall i :: 0 <= i < |sent| - 1 ==> Accepted(answers, i)
    ensures AllAccepted(answers, |rs|) ==> sent == rs
    ensures !AllAccepted(answers, |rs|) ==> sent != [] && !Accepted(answers, |sent| - 1)
  {
    var k := FirstRejection(answers, |rs|);
    if k == |rs| then rs else rs[..k + 1]
  }

  /** When the k-th request is the first rejected one, exactly the first k + 1 are sent. */
  lemma SentUntilFirstRejection<T>(rs: seq<T>, answers: seq<bool>, k: nat)
    requires k < |rs| && AllAccepted(answers, k) && !Accepted(answers, k)
    ensures SentUntilRejected(rs, answers) == rs[..k + 1]
  {
    assert !AllAccepted(answers, |rs|);
  }

  /** A single awaited request is always sent. */
  lemma OneRequestIsSent<T>(r: T, answers: seq<bool>)
    ensures SentUntilRejected([r], answers) == [r]
  {
  }
}
