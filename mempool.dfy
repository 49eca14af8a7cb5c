/** The pending pool of spend bundles: the views the node takes over it
    (flattened removals and additions, total fees, the combined block
    generator) and the admission decision of push_tx. */
module Mempool {
  import opened Types

  // ---------------------------------------------------------------------
  // Views over the pending bundles
  // ---------------------------------------------------------------------

  /** `f(b)` for every bundle `b` of `mp`, concatenated in mempool order. */
  function FlatMap<T(==, !new)>(mp: seq<SpendBundle>, f: SpendBundle -> seq<T>): (r: seq<T>)
    ensures forall x :: x in r <==> exists i :: 0 <= i < |mp| && x in f(mp[i])
  {
    if mp == [] then []
    else
      var init := mp[..|mp| - 1];
      assert forall i :: 0 <= i < |init| ==> init[i] == mp[i];
      FlatMap(init, f) + f(mp[|mp| - 1])
  }

  /** Flattening a concatenation of pools concatenates the flattenings. */
  lemma {:induction false} FlatMapAppend<T(!new)>(a: seq<SpendBundle>, b: seq<SpendBundle>, f: SpendBundle -> seq<T>)
    ensures FlatMap(a + b, f) == FlatMap(a, f) + FlatMap(b, f)
  {
    if b == [] {
      assert a + b == a;
    } else {
      FlatMapAppend(a, b[..|b| - 1], f);
      assert (a + b)[..|a + b| - 1] == a + b[..|b| - 1];
    }
  }

  /** The sum of `fees(b)` over the bundles `b` of `mp`. */
  function TotalFees(fees: SpendBundle -> nat, mp: seq<SpendBundle>): nat
  {
    if mp == [] then 0 else TotalFees(fees, mp[..|mp| - 1]) + fees(mp[|mp| - 1])
  }

  /** Total fees add up over a concatenation of pools. */
  lemma {:induction false} TotalFeesAppend(fees: SpendBundle -> nat, a: seq<SpendBundle>, b: seq<SpendBundle>)
    ensures TotalFees(fees, a + b) == TotalFees(fees, a) + TotalFees(fees, b)
  {
    if b == [] {
      assert a + b == a;
    } else {
      TotalFeesAppend(fees, a, b[..|b| - 1]);
      assert (a + b)[..|a + b| - 1] == a + b[..|b| - 1];
    }
  }

  /** Every bundle's fee is part of the total. */
  lemma {:induction false} TotalFeesBound(fees: SpendBundle -> nat, mp: seq<SpendBundle>, i: nat)
    requires i < |mp|
    ensures fees(mp[i]) <= TotalFees(fees, mp)
  {
    if i < |mp| - 1 {
      TotalFeesBound(fees, mp[..|mp| - 1], i);
    }
  }

  /** The aggregated signature of each bundle, in mempool order. */
  function Signatures(mp: seq<SpendBundle>): (r: seq<Signature>)
    ensures |r| == |mp|
    ensures forall i :: 0 <= i < |mp| ==> r[i] == mp[i].aggregatedSignature
  {
    if mp == [] then [] else Signatures(mp[..|mp| - 1]) + [mp[|mp| - 1].aggregatedSignature]
  }

  function CoinSolutionsOf(b: SpendBundle): seq<CoinSolution>
  {
    b.coinSolutions
  }

  /** The one bundle a block carries: every coin spend of the pool in order,
      under the aggregate of every bundle's signature. */
  function CombinedBundle(aggregate: seq<Signature> -> Signature, mp: seq<SpendBundle>): SpendBundle
  {
    SpendBundle(FlatMap(mp, CoinSolutionsOf), aggregate(Signatures(mp)))
  }

  /** The transactions generator of a block farmed over `mp`: none for an
      empty pool, otherwise the encoding of the combined bundle. */
  function Generator(env: Env, mp: seq<SpendBundle>): Option<Program>
  {
    if mp == [] then None else Some(env.encodeGenerator(CombinedBundle(env.aggregate, mp)))
  }

  /** A bundle joining the pool adds its coin spends after every earlier
      one and its signature after every earlier signature: the combined
      bundle keeps mempool order. */
  lemma CombinedBundleAppend(aggregate: seq<Signature> -> Signature, mp: seq<SpendBundle>, b: SpendBundle)
    ensures CombinedBundle(aggregate, mp + [b]).coinSolutions
            == CombinedBundle(aggregate, mp).coinSolutions + b.coinSolutions
    ensures Signatures(mp + [b]) == Signatures(mp) + [b.aggregatedSignature]
    ensures CombinedBundle(aggregate, mp + [b]).aggregatedSignature
            == aggregate(Signatures(mp) + [b.aggregatedSignature])
  {
    assert (mp + [b])[..|mp + [b]| - 1] == mp;
  }

  // ---------------------------------------------------------------------
  // Admission (push_tx)
  // ---------------------------------------------------------------------

  /** What push_tx hands back: the status name and the validation cost. */
  datatype Reply = Reply(status: InclusionStatus, cost: Option<nat>)

  /** How push_tx can fail: the validator rejected the bundle; the validator
      said FAILED without an error (the assertion before the raise); or the
      reply read a cost that was never bound. */
  datatype PushError = TransactionRejected(code: ErrorCode) | MissingError | CostUnbound

  /** The mempool after a submission, and what the submission returned. */
  datatype Admission = Admission(mempool: seq<SpendBundle>, outcome: Result<Reply, PushError>)

  /** push_tx's decision, as written, given the pool `mp`, the submitted
      bundle `b` and the validator's verdict `v` on it. A bundle already in
      the pool is not validated: it is appended again and the reply then
      fails on the unbound cost. */
  function Admit(mp: seq<SpendBundle>, b: SpendBundle, v: Validation): (r: Admission)
    ensures r.mempool == mp || r.mempool == mp + [b]
    ensures r.mempool == mp + [b] <==> b in mp || v.status == Success
    ensures r.outcome.Ok? <==> b !in mp && v.status != Failed
    ensures r.outcome.Ok? ==> r.outcome.value == Reply(v.status, Some(v.cost))
    ensures r.outcome.Err? && b !in mp ==>
              r.outcome.error == if v.error.Some? then TransactionRejected(v.error.value) else MissingError
    ensures b in mp ==> r.outcome == Err(CostUnbound)
  {
    if b in mp then Admission(mp + [b], Err(CostUnbound))
    else if v.status == Failed then
      Admission(mp, Err(if v.error.Some? then TransactionRejected(v.error.value) else MissingError))
    else if v.status == Success then Admission(mp + [b], Ok(Reply(Success, Some(v.cost))))
    else Admission(mp, Ok(Reply(v.status, Some(v.cost))))
  }

  /** Submitting an admitted bundle again puts a second copy of it in the
      pool and fails: admission as written is not idempotent. */
  lemma ResubmissionDuplicates(mp: seq<SpendBundle>, b: SpendBundle, v: Validation, v': Validation)
    requires b !in mp && v.status == Success
    ensures var first := Admit(mp, b, v);
            var second := Admit(first.mempool, b, v');
            && first.outcome == Ok(Reply(Success, Some(v.cost)))
            && second.mempool == mp + [b, b]
            && multiset(second.mempool)[b] == 2
            && second.outcome == Err(CostUnbound)
  {
    var first := Admit(mp, b, v);
    assert b in first.mempool;
    assert first.mempool + [b] == mp + [b, b];
    assert multiset(mp + [b, b]) == multiset(mp) + multiset{b, b};
  }

  /** push_tx's decision with an already-admitted bundle treated as a
      successful resubmission: the pool is left alone and no cost is
      reported, since the bundle is not validated again. */
  function AdmitIntended(mp: seq<SpendBundle>, b: SpendBundle, v: Validation): (r: Admission)
    ensures b in mp ==> r == Admission(mp, Ok(Reply(Success, None)))
    ensures b !in mp ==> r == Admit(mp, b, v)
  {
    if b in mp then Admission(mp, Ok(Reply(Success, None))) else Admit(mp, b, v)
  }

  /** With the intended decision, submitting the same bundle twice succeeds
      both times and leaves it in the pool exactly once, whatever the
      validator would say the second time. */
  lemma AdmitIntendedIdempotent(mp: seq<SpendBundle>, b: SpendBundle, v: Validation, v': Validation)
    requires b !in mp && v.status == Success
    ensures var first := AdmitIntended(mp, b, v);
            var second := AdmitIntended(first.mempool, b, v');
            && first.outcome.Ok? && first.outcome.value.status == Success
            && second.outcome.Ok? && second.outcome.value.status == Success
            && second.mempool == first.mempool == mp + [b]
            && multiset(second.mempool)[b] == 1
  {
    var first := AdmitIntended(mp, b, v);
    assert b in first.mempool;
    assert multiset(mp + [b]) == multiset(mp) + multiset{b};
  }
}
