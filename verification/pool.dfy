/** The worker pool seen sequentially: every network is checked once, a
    failed check contributes nothing and does not stop the others, and a
    successful check contributes all of its rows as one block. Workers finish
    in an order nobody controls, so the rows are specified up to permutation:
    any processing order gives the same multiset of rows. */
module Pool {
  import opened Wrappers
  import opened Reports
  import opened AbuseApi

  /** The outcome of checking one network. */
  type CheckResult = Result<seq<ReportRow>, CheckError>

  /** The rows one network adds to the aggregate. */
  function Contribution(result: CheckResult): seq<ReportRow>
  {
    if result.Success? then result.value else []
  }

  /** The aggregate after the networks are processed in the order given. */
  function ProcessNetworks(networks: seq<string>, check: string -> CheckResult): (rows: seq<ReportRow>)
    ensures (forall n :: n in networks ==> check(n).Failure?) ==> rows == []
  {
    if |networks| == 0 then []
    else Contribution(check(networks[0])) + ProcessNetworks(networks[1..], check)
  }

  /** Every row of every successful network is aggregated, whatever the other
      networks do, and every aggregated row comes from a successful network. */
  lemma {:induction false} AggregateMembership(networks: seq<string>, check: string -> CheckResult)
    ensures forall n, row :: n in networks && check(n).Success? && row in check(n).value ==>
              row in ProcessNetworks(networks, check)
    ensures forall row :: row in ProcessNetworks(networks, check) ==>
              exists n :: n in networks && check(n).Success? && row in check(n).value
    decreases |networks|
  {
    if |networks| > 0 {
      AggregateMembership(networks[1..], check);
      assert forall n :: n in networks ==> n == networks[0] || n in networks[1..];
      assert forall n :: n in networks[1..] ==> n in networks;
    }
  }

  /** Processing one batch of networks after another appends their aggregates. */
  lemma {:induction false} ProcessNetworksAppend(xs: seq<string>, ys: seq<string>, check: string -> CheckResult)
    ensures ProcessNetworks(xs + ys, check) == ProcessNetworks(xs, check) + ProcessNetworks(ys, check)
    decreases |xs|
  {
    if |xs| == 0 {
      assert xs + ys == ys;
    } else {
      assert (xs + ys)[1..] == xs[1..] + ys;
      ProcessNetworksAppend(xs[1..], ys, check);
    }
  }

  /** A network whose check fails adds nothing, wherever it sits among the others. */
  lemma FailedNetworkContributesNothing(before: seq<string>, n: string, after: seq<string>, check: string -> CheckResult)
    requires check(n).Failure?
    ensures ProcessNetworks(before + [n] + after, check) == ProcessNetworks(before + after, check)
  {
    ProcessNetworksAppend(before + [n], after, check);
    ProcessNetworksAppend(before, [n], check);
    ProcessNetworksAppend(before, after, check);
  }

  /** A sequence is its part before `k`, its element at `k`, and its part after `k`. */
  lemma SplitAt<T>(xs: seq<T>, k: nat)
    requires k < |xs|
    ensures xs == xs[..k] + [xs[k]] + xs[k + 1..]
  {
    assert xs[k..] == [xs[k]] + xs[k + 1..];
    assert xs == xs[..k] + xs[k..];
  }

  /** Removing position `k` removes one occurrence of `xs[k]`. */
  lemma MultisetRemoveAt(xs: seq<string>, k: nat)
    requires k < |xs|
    ensures multiset(xs[..k] + xs[k + 1..]) == multiset(xs) - multiset{xs[k]}
  {
    SplitAt(xs, k);
  }

  /** The aggregate around one network is the aggregate before it, its rows,
      and the aggregate after it. */
  lemma ProcessNetworksAround(before: seq<string>, n: string, after: seq<string>, check: string -> CheckResult)
    ensures ProcessNetworks(before + [n] + after, check)
            == ProcessNetworks(before, check) + Contribution(check(n)) + ProcessNetworks(after, check)
  {
    ProcessNetworksAppend(before + [n], after, check);
    ProcessNetworksAppend(before, [n], check);
  }

  /** The aggregate of `xs` is the rows of `xs[k]` plus the aggregate of the
      other networks, as multisets. */
  lemma ProcessNetworksRemoveAt(xs: seq<string>, k: nat, check: string -> CheckResult)
    requires k < |xs|
    ensures multiset(ProcessNetworks(xs, check))
            == multiset(Contribution(check(xs[k]))) + multiset(ProcessNetworks(xs[..k] + xs[k + 1..], check))
  {
    SplitAt(xs, k);
    ProcessNetworksAround(xs[..k], xs[k], xs[k + 1..], check);
    ProcessNetworksAppend(xs[..k], xs[k + 1..], check);
  }

  /** The order in which networks are processed does not change the multiset
      of aggregated rows. */
  lemma {:induction false} ProcessOrderIrrelevant(xs: seq<string>, ys: seq<string>, check: string -> CheckResult)
    requires multiset(xs) == multiset(ys)
    ensures multiset(ProcessNetworks(xs, check)) == multiset(ProcessNetworks(ys, check))
    decreases |xs|
  {
    if |xs| == 0 {
      assert |ys| == |multiset(ys)| == 0;
    } else {
      var n := xs[0];
      assert n in multiset(ys);
      var k :| 0 <= k < |ys| && ys[k] == n;
      MultisetRemoveAt(xs, 0);
      MultisetRemoveAt(ys, k);
      assert xs[..0] + xs[1..] == xs[1..];
      ProcessOrderIrrelevant(xs[1..], ys[..k] + ys[k + 1..], check);
      ProcessNetworksRemoveAt(ys, k, check);
    }
  }

  /** When every network yields exactly one row, there is one aggregated row
      per network: no update is lost and none is duplicated. */
  lemma {:induction false} OneRowPerNetwork(networks: seq<string>, check: string -> CheckResult)
    requires forall n :: n in networks ==> check(n).Success? && |check(n).value| == 1
    ensures |ProcessNetworks(networks, check)| == |networks|
    decreases |networks|
  {
    if |networks| > 0 {
      assert networks[0] in networks;
      assert forall n :: n in networks[1..] ==> n in networks;
      OneRowPerNetwork(networks[1..], check);
    }
  }
}
