/** The membership gate (`not_joined`): one membership query per required
    group, in list order, failing closed. The query results are an input,
    one per group. */
module Gate {

  import opened Model

  /** A group counts as not joined when the query raised or reported the
      user as having left or been kicked. */
  predicate Fails(p: Probe) {
    match p
    case ProbeFailed => true
    case Status(s) => s == "left" || s == "kicked"
  }

  /** The groups whose query fails, in list order. */
  function Missing(groups: seq<Group>, probes: seq<Probe>): seq<Group>
    requires |probes| == |groups|
    decreases |groups|
  {
    if groups == [] then []
    else
      var n := |groups| - 1;
      Missing(groups[..n], probes[..n]) + (if Fails(probes[n]) then [groups[n]] else [])
  }

  /** The positions whose query fails, in increasing order. */
  function FailingIndices(probes: seq<Probe>): seq<nat>
    decreases |probes|
  {
    if probes == [] then []
    else
      var n := |probes| - 1;
      FailingIndices(probes[..n]) + (if Fails(probes[n]) then [n] else [])
  }

  predicate StrictlyIncreasing(xs: seq<nat>) {
    forall i, j :: 0 <= i < j < |xs| ==> xs[i] < xs[j]
  }

  /** FailingIndices lists exactly the positions whose query fails, each
      once and in increasing order. */
  lemma {:induction false} FailingIndicesExact(probes: seq<Probe>)
    ensures StrictlyIncreasing(FailingIndices(probes))
    ensures forall j :: 0 <= j < |FailingIndices(probes)| ==> FailingIndices(probes)[j] < |probes|
    ensures forall i :: 0 <= i < |probes| ==> (Fails(probes[i]) <==> i in FailingIndices(probes))
    decreases |probes|
  {
    if probes != [] {
      var n := |probes| - 1;
      var pre := probes[..n];
      FailingIndicesExact(pre);
      forall i | 0 <= i < n ensures probes[i] == pre[i] { }
    }
  }

  /** The result of the gate is the list of groups at the failing
      positions, taken in order. */
  lemma {:induction false} MissingByIndex(groups: seq<Group>, probes: seq<Probe>)
    requires |probes| == |groups|
    ensures |Missing(groups, probes)| == |FailingIndices(probes)|
    ensures forall j :: 0 <= j < |FailingIndices(probes)| ==>
              FailingIndices(probes)[j] < |groups| &&
              Missing(groups, probes)[j] == groups[FailingIndices(probes)[j]]
    decreases |groups|
  {
    FailingIndicesExact(probes);
    if groups != [] {
      var n := |groups| - 1;
      MissingByIndex(groups[..n], probes[..n]);
      FailingIndicesExact(probes[..n]);
      var m := Missing(groups[..n], probes[..n]);
      var fi := FailingIndices(probes[..n]);
      forall j | 0 <= j < |fi| ensures groups[..n][fi[j]] == groups[fi[j]] { }
    }
  }

  /** Access is granted (nothing missing) exactly when every query answered
      with a status other than "left" or "kicked"; an empty group list
      always grants access. */
  lemma {:induction false} GrantedIff(groups: seq<Group>, probes: seq<Probe>)
    requires |probes| == |groups|
    ensures Missing(groups, probes) == [] <==> forall i :: 0 <= i < |probes| ==> !Fails(probes[i])
    decreases |groups|
  {
    if groups != [] {
      var n := |groups| - 1;
      GrantedIff(groups[..n], probes[..n]);
      assert forall i :: 0 <= i < n ==> probes[..n][i] == probes[i];
    }
  }

  /** `not_joined(user_id)`: queries each group in turn and collects those
      whose query raised or reported "left" or "kicked". Reads nothing but
      its inputs and changes nothing. */
  method NotJoined(groups: seq<Group>, probes: seq<Probe>) returns (missing: seq<Group>)
    requires |probes| == |groups|
    ensures missing == Missing(groups, probes)
    ensures forall g :: g in missing ==> g in groups
  {
    missing := [];
    var i := 0;
    while i < |groups|
      invariant 0 <= i <= |groups|
      invariant missing == Missing(groups[..i], probes[..i])
      invariant forall g :: g in missing ==> g in groups
    {
      assert groups[..i + 1][..i] == groups[..i];
      assert probes[..i + 1][..i] == probes[..i];
      if Fails(probes[i]) {
        missing := missing + [groups[i]];
      }
      i := i + 1;
    }
    assert groups[..i] == groups;
    assert probes[..i] == probes;
  }
}
