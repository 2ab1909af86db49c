/** The schedule of the refinement that follows every initialisation:
    per epoch, the gradients are cleared, every batch of the loader adds its
    gradient at the same parameters, and the optimiser then takes exactly one
    step. The gradient, its accumulation and the optimiser step (AdamW with
    its moment estimates, which are part of the state `P`) are opaque. */
module Refine {

  /** The gradient after `zero_grad()` and one `backward()` per batch, every
      batch evaluated at the same parameters. */
  function Accumulate<P, B, G>(params: P, batches: seq<B>, grad: (P, B) -> G, add: (G, G) -> G, zero: G): (g: G)
    ensures |batches| == 1 ==> g == add(zero, grad(params, batches[0]))
    decreases |batches|
  {
    if batches == [] then zero
    else add(Accumulate(params, batches[..|batches| - 1], grad, add, zero), grad(params, batches[|batches| - 1]))
  }

  /** The state after `n` epochs: one step per epoch, each with the gradient
      of a full pass at the state the epoch started from. */
  function Epochs<P, B, G>(params: P, n: nat, batches: seq<B>, grad: (P, B) -> G, add: (G, G) -> G, zero: G,
                           step: (P, G) -> P): (r: P)
    ensures n == 1 ==> r == step(params, Accumulate(params, batches, grad, add, zero))
  {
    if n == 0 then params
    else
      var before := Epochs(params, n - 1, batches, grad, add, zero, step);
      step(before, Accumulate(before, batches, grad, add, zero))
  }

  /** The refinement loop: `test_epochs` epochs over the loader. */
  method Refine<P, B, G>(init: P, testEpochs: nat, batches: seq<B>, grad: (P, B) -> G, add: (G, G) -> G, zero: G,
                         step: (P, G) -> P)
    returns (params: P)
    ensures params == Epochs(init, testEpochs, batches, grad, add, zero, step)
  {
    params := init;
    for epoch := 0 to testEpochs
      invariant params == Epochs(init, epoch, batches, grad, add, zero, step)
    {
      var g := zero;
      for t := 0 to |batches|
        invariant g == Accumulate(params, batches[..t], grad, add, zero)
      {
        assert batches[..t + 1][..t] == batches[..t];
        g := add(g, grad(params, batches[t]));
      }
      assert batches[..|batches|] == batches;
      params := step(params, g);
    }
  }

  /** Running `a` epochs and then `b` more is running `a + b` epochs: the
      schedule keeps no state outside `P`. */
  lemma {:induction false} EpochsAdd<P, B, G>(init: P, a: nat, b: nat, batches: seq<B>, grad: (P, B) -> G,
                                             add: (G, G) -> G, zero: G, step: (P, G) -> P)
    ensures Epochs(init, a + b, batches, grad, add, zero, step)
         == Epochs(Epochs(init, a, batches, grad, add, zero, step), b, batches, grad, add, zero, step)
  {
    if b > 0 {
      EpochsAdd(init, a, b - 1, batches, grad, add, zero, step);
    }
  }

  /** One use of associativity, at three given gradients. */
  lemma Regroup<G>(add: (G, G) -> G, a: G, b: G, c: G)
    requires forall g1, g2, g3 :: add(add(g1, g2), g3) == add(g1, add(g2, g3))
    ensures add(add(a, b), c) == add(a, add(b, c))
  {
  }

  /** With an associative accumulation that has `zero` as its identity, the
      gradient of a loader is the sum of the gradients of any split of it
      into two consecutive parts. */
  lemma {:induction false} AccumulateConcat<P, B, G>(params: P, xs: seq<B>, ys: seq<B>, grad: (P, B) -> G,
                                                     add: (G, G) -> G, zero: G)
    requires forall g1, g2, g3 :: add(add(g1, g2), g3) == add(g1, add(g2, g3))
    requires forall g :: add(g, zero) == g
    ensures Accumulate(params, xs + ys, grad, add, zero)
         == add(Accumulate(params, xs, grad, add, zero), Accumulate(params, ys, grad, add, zero))
    decreases |ys|
  {
    if ys == [] {
      assert xs + ys == xs;
    } else {
      var init, last := ys[..|ys| - 1], ys[|ys| - 1];
      assert (xs + ys)[..|xs + ys| - 1] == xs + init;
      assert (xs + ys)[|xs + ys| - 1] == last;
      AccumulateConcat(params, xs, init, grad, add, zero);
      Regroup(add, Accumulate(params, xs, grad, add, zero), Accumulate(params, init, grad, add, zero), grad(params, last));
      calc {
        Accumulate(params, xs + ys, grad, add, zero);
        add(Accumulate(params, xs + init, grad, add, zero), grad(params, last));
        add(add(Accumulate(params, xs, grad, add, zero), Accumulate(params, init, grad, add, zero)), grad(params, last));
        add(Accumulate(params, xs, grad, add, zero), add(Accumulate(params, init, grad, add, zero), grad(params, last)));
        add(Accumulate(params, xs, grad, add, zero), Accumulate(params, ys, grad, add, zero));
      }
    }
  }
}
