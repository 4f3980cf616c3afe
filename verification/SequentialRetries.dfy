/**
 * Retried refusals under the sequential `send_batch` (src/listener/udp_batch.rs): it swallows the
 * error that ends a call which has sent something, so a retry can expose an error that would
 * otherwise have gone unnoticed.
 */
module SequentialRetries {
  import opened Net
  import opened UdpBatch
  import opened UdpSend

  predicate Soft(r: SendReply) {
    r.Refuse? && Retried(r.kind)
  }

  predicate Hard(r: SendReply) {
    r.Refuse? && !Retried(r.kind)
  }

  /** A flush reply by reply; `open` says that the current call has sent something. */
  function OneByOne(n: nat, script: seq<SendReply>, open: bool): nat {
    if n == 0 || script == [] then 0
    else if script[0].Accept? then 1 + OneByOne(n - 1, script[1..], true)
    else if open || Soft(script[0]) then OneByOne(n, script[1..], false)
    else 0
  }

  lemma {:induction false} LeadingAccepts(n: nat, script: seq<SendReply>, k: nat, open: bool)
    requires k <= Accepts(script) && k <= n
    ensures OneByOne(n, script, open) == k + OneByOne(n - k, script[k..], open || k > 0)
  {
    if k == 0 {
      assert script[0..] == script;
    } else {
      LeadingAccepts(n - 1, script[1..], k - 1, true);
      assert script[1..][k - 1..] == script[k..];
    }
  }

  /** One call of the flush that sends `k` packets. */
  lemma CallSends(n: nat, script: seq<SendReply>, k: nat)
    requires k == Min(Accepts(script), n) && k > 0
    ensures OneByOne(n, script, false) == k + OneByOne(n - k, Left(false, script, n), false)
  {
    LeadingAccepts(n, script, k, false);
    if k < n && k < |script| {
      assert script[k..][1..] == script[k + 1..];
    }
  }

  lemma CallFails(n: nat, script: seq<SendReply>)
    requires n > 0 && script != [] && Accepts(script) == 0
    ensures script[0].Refuse? && Left(false, script, n) == script[1..] && Reply(false, script, n) == Err(script[0].kind)
  {
    assert script[0..] == script;
  }

  /** The calls of a flush, reply by reply. */
  lemma {:induction false} FlushIsOneByOne(n: nat, script: seq<SendReply>)
    ensures FlushOf(false, n, script).sent == OneByOne(n, script, false)
    decreases |script|
  {
    if n != 0 && script != [] {
      var k := Min(Accepts(script), n);
      FlushStep(false, n, script);
      FlushIsOneByOne(n - k, Left(false, script, n));
      if k == 0 {
        CallFails(n, script);
      } else {
        CallSends(n, script, k);
      }
    }
  }

  /** The reply before `k` is a success, so the call that meets `k` has sent something. */
  predicate Open(script: seq<SendReply>, k: nat)
    requires k <= |script|
  {
    k > 0 && script[k - 1].Accept?
  }

  /** Retries apart, the reply before `k` is a success. */
  predicate OpenButForRetries(script: seq<SendReply>, k: nat)
    requires k <= |script|
  {
    k > 0 && (script[k - 1].Accept? || (Soft(script[k - 1]) && OpenButForRetries(script, k - 1)))
  }

  /** Retries apart, the reply at `k` is a success. */
  predicate AcceptNext(script: seq<SendReply>, k: nat)
    requires k <= |script|
    decreases |script| - k
  {
    k < |script| && (script[k].Accept? || (Soft(script[k]) && AcceptNext(script, k + 1)))
  }

  /** Successes among the replies `k..j`. */
  function Successes(script: seq<SendReply>, k: nat, j: nat): nat
    requires k <= j <= |script|
    decreases j - k
  {
    if k == j then 0 else (if script[k].Accept? then 1 else 0) + Successes(script, k + 1, j)
  }

  /**
   * The error at `j` ends the flush with packets and successes left, and only because a retry
   * separates it from the success before it.
   */
  ghost predicate Exposed(n: nat, script: seq<SendReply>, k: nat, j: nat) {
    && k <= j < |script| && Hard(script[j])
    && !Open(script, j) && OpenButForRetries(script, j)
    && AcceptNext(script, j + 1) && Successes(script, k, j) < n
    && forall i | k <= i < j && Hard(script[i]) :: Open(script, i)
  }

  function From(n: nat, script: seq<SendReply>, k: nat): nat
    requires k <= |script|
  {
    OneByOne(n, script[k..], Open(script, k))
  }

  function CleanFrom(n: nat, script: seq<SendReply>, k: nat): nat
    requires k <= |script|
  {
    OneByOne(n, WithoutRetries(script[k..]), OpenButForRetries(script, k))
  }

  lemma {:induction false} SendsMoreIff(n: nat, script: seq<SendReply>, k: nat)
    requires k <= |script| && n > 0
    ensures OneByOne(n, WithoutRetries(script[k..]), false) > 0 <==> AcceptNext(script, k)
    decreases |script| - k
  {
    if k < |script| {
      assert script[k..][1..] == script[k + 1..];
      if Soft(script[k]) {
        assert WithoutRetries(script[k..]) == WithoutRetries(script[k + 1..]);
        SendsMoreIff(n, script, k + 1);
      } else {
        assert WithoutRetries(script[k..])[0] == script[k];
      }
    }
  }

  /** What one more reply does to both flushes. */
  lemma BothStep(n: nat, script: seq<SendReply>, k: nat)
    requires k < |script| && n > 0
    ensures script[k].Accept? ==>
              && From(n, script, k) == 1 + From(n - 1, script, k + 1)
              && CleanFrom(n, script, k) == 1 + CleanFrom(n - 1, script, k + 1)
    ensures Soft(script[k]) || (Hard(script[k]) && Open(script, k)) ==>
              From(n, script, k) == From(n, script, k + 1) && CleanFrom(n, script, k) == CleanFrom(n, script, k + 1)
    ensures Hard(script[k]) && !Open(script, k) ==> From(n, script, k) == 0
    ensures Hard(script[k]) && !Open(script, k) ==>
              CleanFrom(n, script, k)
              == if OpenButForRetries(script, k) then OneByOne(n, WithoutRetries(script[k + 1..]), false) else 0
  {
    assert script[k..][1..] == script[k + 1..];
    var rest := WithoutRetries(script[k + 1..]);
    assert WithoutRetries(script[k..]) == if Soft(script[k]) then rest else [script[k]] + rest;
    assert ([script[k]] + rest)[1..] == rest;
  }

  ghost predicate SomeExposed(n: nat, script: seq<SendReply>, k: nat) {
    exists j: nat :: Exposed(n, script, k, j)
  }

  lemma ExposedStep(n: nat, m: nat, script: seq<SendReply>, k: nat, j: nat)
    requires k < |script| && n > 0 && (Hard(script[k]) ==> Open(script, k))
    requires m == if script[k].Accept? then n - 1 else n
    ensures Exposed(n, script, k, j) <==> Exposed(m, script, k + 1, j)
  {
    if k < j < |script| {
      assert Successes(script, k, j) == (if script[k].Accept? then 1 else 0) + Successes(script, k + 1, j);
    }
  }

  lemma ExposedLater(n: nat, m: nat, script: seq<SendReply>, k: nat)
    requires k < |script| && n > 0 && (Hard(script[k]) ==> Open(script, k))
    requires m == if script[k].Accept? then n - 1 else n
    ensures SomeExposed(n, script, k) <==> SomeExposed(m, script, k + 1)
  {
    if j: nat :| Exposed(n, script, k, j) {
      ExposedStep(n, m, script, k, j);
    }
    var next := k + 1;
    if j: nat :| Exposed(m, script, next, j) {
      ExposedStep(n, m, script, k, j);
    }
  }

  lemma {:induction false} RetriesMatterFrom(n: nat, script: seq<SendReply>, k: nat)
    requires k <= |script|
    ensures From(n, script, k) <= CleanFrom(n, script, k)
    ensures From(n, script, k) != CleanFrom(n, script, k) <==> SomeExposed(n, script, k)
    decreases |script| - k
  {
    if n > 0 && k < |script| {
      BothStep(n, script, k);
      if Hard(script[k]) && !Open(script, k) {
        SendsMoreIff(n, script, k + 1);
        assert Exposed(n, script, k, k) <==> OpenButForRetries(script, k) && AcceptNext(script, k + 1);
      } else {
        var m := if script[k].Accept? then n - 1 else n;
        RetriesMatterFrom(m, script, k + 1);
        ExposedLater(n, m, script, k);
      }
    }
  }

  /** Retries never gain anything, and cost something iff they expose an error. */
  lemma RetriesMatterIff(n: nat, script: seq<SendReply>)
    ensures FlushOf(false, n, script).sent <= FlushOf(false, n, WithoutRetries(script)).sent
    ensures FlushOf(false, n, script).sent == FlushOf(false, n, WithoutRetries(script)).sent
            <==> !SomeExposed(n, script, 0)
  {
    FlushIsOneByOne(n, script);
    FlushIsOneByOne(n, WithoutRetries(script));
    assert script[0..] == script;
    RetriesMatterFrom(n, script, 0);
  }

  /** In particular they are invisible when every error is retried. */
  lemma RetriesAloneAreInvisible(n: nat, script: seq<SendReply>)
    requires forall i | 0 <= i < |script| :: !Hard(script[i])
    ensures FlushOf(false, n, script).sent == FlushOf(false, n, WithoutRetries(script)).sent
  {
    RetriesMatterIff(n, script);
  }

  /** Two packets, a success, an interruption, an error, a success: the interruption costs a packet. */
  lemma RetryExposesAnError()
    ensures var script := [Accept(1), Refuse(Interrupted), Refuse(Other), Accept(1)];
            FlushOf(false, 2, script).sent < FlushOf(false, 2, WithoutRetries(script)).sent
  {
    ShapeExposes(2, [Accept(1), Refuse(Interrupted), Refuse(Other), Accept(1)]);
  }

  lemma ShapeExposes(n: nat, script: seq<SendReply>)
    requires n >= 2 && |script| == 4
    requires script[0].Accept? && Soft(script[1]) && Hard(script[2]) && script[3].Accept?
    ensures FlushOf(false, n, script).sent < FlushOf(false, n, WithoutRetries(script)).sent
  {
    assert Successes(script, 1, 2) == 0 && Successes(script, 0, 2) == 1;
    assert OpenButForRetries(script, 1);
    assert Exposed(n, script, 0, 2);
    RetriesMatterIff(n, script);
  }
}
