/** Exposing the hosted applications (exposeHostedApps) with module loading,
    promises and the framework's mount call replaced by what they decide: the
    outcome of each entry's loader and the path the entry is mounted at. */
module HostedApps {

  /** How one entry ended: its loader returned a handler at once and the handler
      was mounted, it returned a promise that resolved and the resolved handler
      was mounted, the promise rejected, or something threw before the entry
      settled. A mount call that throws on an immediate handler makes the entry
      `Threw`; one that throws on a resolved handler makes it `DeferredErr`. */
  datatype Outcome = Immediate | DeferredOk | DeferredErr | Threw

  /** The entry was mounted. */
  predicate Succeeded(o: Outcome)
  {
    o.Immediate? || o.DeferredOk?
  }

  /** The value the entry's promise settles with: 1 for a mounted entry, 0 for a
      rejected or throwing one. */
  function Contribution(o: Outcome): (r: nat)
    ensures r <= 1
    ensures r == 1 <==> Succeeded(o)
  {
    match o
    case Immediate => 1
    case DeferredOk => 1
    case DeferredErr => 0
    case Threw => 0
  }

  /** The results array: one settled value per entry, in entry order. */
  function Results(outcomes: seq<Outcome>): (results: seq<nat>)
    ensures |results| == |outcomes|
    ensures forall i :: 0 <= i < |outcomes| ==> results[i] == Contribution(outcomes[i])
  {
    if outcomes == [] then [] else [Contribution(outcomes[0])] + Results(outcomes[1..])
  }

  /** The summing reduce over the results, from 0, left to right. */
  function Sum(results: seq<nat>): nat
  {
    if results == [] then 0 else Sum(results[..|results| - 1]) + results[|results| - 1]
  }

  /** The mount path of an entry. */
  function MountPath(name: string): string
  {
    "/" + name
  }

  /** The mount paths of the successful entries, in entry order. */
  function Mounted(names: seq<string>, outcomes: seq<Outcome>): (paths: seq<string>)
    requires |names| == |outcomes|
    ensures |paths| <= |names|
    ensures forall p :: p in paths <==>
      exists i :: 0 <= i < |names| && Succeeded(outcomes[i]) && p == MountPath(names[i])
  {
    if names == [] then []
    else
      var rest := Mounted(names[1..], outcomes[1..]);
      assert forall p :: p in rest <==>
        exists i :: 1 <= i < |names| && Succeeded(outcomes[i]) && p == MountPath(names[i]) by {
        forall p | p in rest ensures exists i :: 1 <= i < |names| && Succeeded(outcomes[i]) && p == MountPath(names[i]) {
          var j :| 0 <= j < |names| - 1 && Succeeded(outcomes[1..][j]) && p == MountPath(names[1..][j]);
          assert Succeeded(outcomes[j + 1]) && p == MountPath(names[j + 1]);
        }
        forall i | 1 <= i < |names| && Succeeded(outcomes[i]) ensures MountPath(names[i]) in rest {
          assert names[1..][i - 1] == names[i] && outcomes[1..][i - 1] == outcomes[i];
        }
      }
      if Succeeded(outcomes[0]) then [MountPath(names[0])] + rest else rest
  }

  /** What exposing the entries leaves behind: the settled values, the paths
      mounted on the main application and the total that is logged. */
  datatype Exposure = Exposure(results: seq<nat>, mounted: seq<string>, total: nat)

  /** Exposes every entry, whatever the earlier entries did: `outcomes[i]` is
      how the loader of the entry named `names[i]` ended. */
  function ExposeHostedApps(names: seq<string>, outcomes: seq<Outcome>): (e: Exposure)
    requires |names| == |outcomes|
    ensures |e.results| == |names|
    ensures forall i :: 0 <= i < |names| ==> e.results[i] == Contribution(outcomes[i])
    ensures forall p :: p in e.mounted <==>
      exists i :: 0 <= i < |names| && Succeeded(outcomes[i]) && p == MountPath(names[i])
  {
    var results := Results(outcomes);
    Exposure(results, Mounted(names, outcomes), Sum(results))
  }
}

module HostedAppsProperties {
  import opened HostedApps

  /** Number of entries that were mounted. */
  function CountSucceeded(outcomes: seq<Outcome>): nat
  {
    if outcomes == [] then 0
    else (if Succeeded(outcomes[0]) then 1 else 0) + CountSucceeded(outcomes[1..])
  }

  /** Number of entries whose promise rejected or whose loader threw. */
  function CountFailed(outcomes: seq<Outcome>): nat
  {
    if outcomes == [] then 0
    else (if Succeeded(outcomes[0]) then 0 else 1) + CountFailed(outcomes[1..])
  }

  /** Every entry is either mounted or failed, never both, never neither. */
  lemma {:induction false} SucceededPlusFailed(outcomes: seq<Outcome>)
    ensures CountSucceeded(outcomes) + CountFailed(outcomes) == |outcomes|
  {
    if outcomes != [] {
      SucceededPlusFailed(outcomes[1..]);
    }
  }

  /** The summing reduce splits over concatenation. */
  lemma {:induction false} SumAppend(a: seq<nat>, b: seq<nat>)
    ensures Sum(a + b) == Sum(a) + Sum(b)
  {
    if b == [] {
      assert a + b == a;
    } else {
      assert (a + b)[..|a + b| - 1] == a + b[..|b| - 1];
      SumAppend(a, b[..|b| - 1]);
    }
  }

  /** Summing the settled values counts the mounted entries. */
  lemma {:induction false} SumResultsCountsSucceeded(outcomes: seq<Outcome>)
    ensures Sum(Results(outcomes)) == CountSucceeded(outcomes)
  {
    if outcomes != [] {
      var c := Contribution(outcomes[0]);
      assert Results(outcomes) == [c] + Results(outcomes[1..]);
      SumAppend([c], Results(outcomes[1..]));
      assert Sum([c]) == Sum([c][..0]) + c;
      SumResultsCountsSucceeded(outcomes[1..]);
    }
  }

  /** One path is mounted per successful entry. */
  lemma {:induction false} MountedCountsSucceeded(names: seq<string>, outcomes: seq<Outcome>)
    requires |names| == |outcomes|
    ensures |Mounted(names, outcomes)| == CountSucceeded(outcomes)
  {
    if names != [] {
      MountedCountsSucceeded(names[1..], outcomes[1..]);
    }
  }

  /** The logged total is the number of entries that returned a handler at once
      or whose promise resolved; it equals the number of mounted paths, lies
      between 0 and the number of entries, and with the failed entries it makes
      up all of them. */
  lemma ExposedTotal(names: seq<string>, outcomes: seq<Outcome>)
    requires |names| == |outcomes|
    ensures ExposeHostedApps(names, outcomes).total == CountSucceeded(outcomes)
    ensures ExposeHostedApps(names, outcomes).total == |ExposeHostedApps(names, outcomes).mounted|
    ensures ExposeHostedApps(names, outcomes).total <= |names|
    ensures ExposeHostedApps(names, outcomes).total + CountFailed(outcomes) == |names|
  {
    SumResultsCountsSucceeded(outcomes);
    MountedCountsSucceeded(names, outcomes);
    SucceededPlusFailed(outcomes);
  }

  /** The count of mounted entries depends only on how many entries ended in
      each way, not on their order. */
  lemma {:induction false} CountSucceededByMultiset(outcomes: seq<Outcome>)
    ensures CountSucceeded(outcomes) == multiset(outcomes)[Immediate] + multiset(outcomes)[DeferredOk]
  {
    if outcomes != [] {
      assert outcomes == [outcomes[0]] + outcomes[1..];
      assert multiset(outcomes) == multiset([outcomes[0]]) + multiset(outcomes[1..]);
      CountSucceededByMultiset(outcomes[1..]);
    }
  }

  /** The total does not depend on the order in which the entries settle. */
  lemma TotalIgnoresOrder(names: seq<string>, outcomes: seq<Outcome>, names': seq<string>, outcomes': seq<Outcome>)
    requires |names| == |outcomes| && |names'| == |outcomes'|
    requires multiset(outcomes) == multiset(outcomes')
    ensures ExposeHostedApps(names, outcomes).total == ExposeHostedApps(names', outcomes').total
  {
    ExposedTotal(names, outcomes);
    ExposedTotal(names', outcomes');
    CountSucceededByMultiset(outcomes);
    CountSucceededByMultiset(outcomes');
  }

  /** A failing entry does not stop the entries after it: the total over a
      concatenation is the sum of the totals of the two parts. */
  lemma {:induction false} CountSucceededAppend(a: seq<Outcome>, b: seq<Outcome>)
    ensures CountSucceeded(a + b) == CountSucceeded(a) + CountSucceeded(b)
  {
    if a == [] {
      assert a + b == b;
    } else {
      assert (a + b)[1..] == a[1..] + b;
      CountSucceededAppend(a[1..], b);
    }
  }

  lemma TotalAppend(names: seq<string>, outcomes: seq<Outcome>, names': seq<string>, outcomes': seq<Outcome>)
    requires |names| == |outcomes| && |names'| == |outcomes'|
    ensures ExposeHostedApps(names + names', outcomes + outcomes').total
         == ExposeHostedApps(names, outcomes).total + ExposeHostedApps(names', outcomes').total
  {
    ExposedTotal(names, outcomes);
    ExposedTotal(names', outcomes');
    ExposedTotal(names + names', outcomes + outcomes');
    CountSucceededAppend(outcomes, outcomes');
  }

  /** When every loader returns a handler at once, all N entries are counted. */
  lemma AllImmediateTotal(names: seq<string>, outcomes: seq<Outcome>)
    requires |names| == |outcomes|
    requires forall i :: 0 <= i < |outcomes| ==> outcomes[i] == Immediate
    ensures ExposeHostedApps(names, outcomes).total == |names|
  {
    ExposedTotal(names, outcomes);
    assert CountFailed(outcomes) == 0 by {
      CountFailedNone(outcomes);
    }
  }

  lemma {:induction false} CountFailedNone(outcomes: seq<Outcome>)
    requires forall i :: 0 <= i < |outcomes| ==> Succeeded(outcomes[i])
    ensures CountFailed(outcomes) == 0
  {
    if outcomes != [] {
      CountFailedNone(outcomes[1..]);
    }
  }
}
