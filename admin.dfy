/** The owner's configuration commands as values: how `/set_delay`,
    `/addgroup` and `/delgroup` read their arguments, and the required
    group list operations behind them. */
module Admin {

  import opened Model
  import opened Text

  // ---- /set_delay ----

  datatype DelayRequest =
    | DelayShow                 // no argument: show the current delay
    | DelayBad                  // not an integer, or not positive
    | DelayMinutes(minutes: nat)

  /** `a = m.text.split()`; fewer than two words shows the delay;
      `int(a[1])` must succeed and be positive. */
  function ParseSetDelay(text: string): (r: DelayRequest)
    ensures r.DelayMinutes? ==> r.minutes > 0
  {
    var a := Words(text);
    if |a| < 2 then DelayShow
    else
      match ParseInt(a[1])
      case None => DelayBad
      case Some(m) => if m <= 0 then DelayBad else DelayMinutes(m)
  }

  /** `/set_delay N` sets N minutes exactly when N is positive. */
  lemma SetDelayOfNumber(command: string, n: int)
    requires IsWord(command)
    ensures ParseSetDelay(command + " " + IntString(n)) == if n > 0 then DelayMinutes(n) else DelayBad
  {
    ParseIntRoundTrip(n);
    WordsOfPair(command, IntString(n));
  }

  /** `/set_delay` alone shows the delay. */
  lemma SetDelayAlone(command: string)
    requires IsWord(command)
    ensures ParseSetDelay(command) == DelayShow
  {
    WordsOfWord(command);
  }

  // ---- /addgroup and /delgroup ----

  datatype AddRequest =
    | AddShow                   // fewer than two arguments
    | AddBad                    // the id is not an integer
    | AddGroupRequest(gid: int, link: string)

  /** `a = m.text.split()`; fewer than three words shows the usage;
      `int(a[1])` must succeed; the link is `a[2]`. */
  function ParseAddGroup(text: string): AddRequest {
    var a := Words(text);
    if |a| < 3 then AddShow
    else
      match ParseInt(a[1])
      case None => AddBad
      case Some(gid) => AddGroupRequest(gid, a[2])
  }

  datatype DelRequest =
    | DelShow                   // no argument
    | DelBad                    // the id is not an integer
    | DelGroupRequest(gid: int)

  function ParseDelGroup(text: string): DelRequest {
    var a := Words(text);
    if |a| < 2 then DelShow
    else
      match ParseInt(a[1])
      case None => DelBad
      case Some(gid) => DelGroupRequest(gid)
  }

  /** `/addgroup ID LINK` reads back the id and the link. */
  lemma AddGroupOfArguments(command: string, gid: int, link: string)
    requires IsWord(command) && IsWord(link)
    ensures ParseAddGroup(Line([command, IntString(gid), link])) == AddGroupRequest(gid, link)
  {
    ParseIntRoundTrip(gid);
    var ws := [command, IntString(gid), link];
    WordsOfLine(ws);
  }

  /** `/delgroup ID` reads back the id. */
  lemma DelGroupOfArgument(command: string, gid: int)
    requires IsWord(command)
    ensures ParseDelGroup(command + " " + IntString(gid)) == DelGroupRequest(gid)
  {
    ParseIntRoundTrip(gid);
    WordsOfPair(command, IntString(gid));
  }

  /** `any(g['id'] == gid for g in required_groups)`. */
  predicate HasGroup(groups: seq<Group>, gid: int) {
    exists i :: 0 <= i < |groups| && groups[i].id == gid
  }

  /** No two required groups share an id. */
  predicate UniqueIds(groups: seq<Group>) {
    forall i, j :: 0 <= i < j < |groups| ==> groups[i].id != groups[j].id
  }

  /** `[g for g in required_groups if g["id"] != gid]`. */
  function RemoveGroup(groups: seq<Group>, gid: int): (r: seq<Group>)
    ensures |r| <= |groups|
    decreases |groups|
  {
    if groups == [] then []
    else
      var n := |groups| - 1;
      RemoveGroup(groups[..n], gid) + (if groups[n].id != gid then [groups[n]] else [])
  }

  /** a is b with some entries left out, the rest in their order. */
  predicate IsSubsequence(a: seq<Group>, b: seq<Group>)
    decreases |b|
  {
    if a == [] then true
    else if b == [] then false
    else
      (a[|a| - 1] == b[|b| - 1] && IsSubsequence(a[..|a| - 1], b[..|b| - 1])) ||
      IsSubsequence(a, b[..|b| - 1])
  }

  /** Removal keeps, in their order and as often as they occur, exactly
      the entries whose id differs; it shortens the list exactly when some
      entry has the id, and leaves it as it was otherwise. */
  lemma RemoveGroupSpec(groups: seq<Group>, gid: int)
    ensures forall g :: g in RemoveGroup(groups, gid) <==> g in groups && g.id != gid
    ensures forall g :: multiset(RemoveGroup(groups, gid))[g] == if g.id != gid then multiset(groups)[g] else 0
    ensures IsSubsequence(RemoveGroup(groups, gid), groups)
    ensures |RemoveGroup(groups, gid)| == |groups| <==> !HasGroup(groups, gid)
    ensures !HasGroup(groups, gid) ==> RemoveGroup(groups, gid) == groups
  {
    RemoveGroupOrder(groups, gid);
    RemoveGroupCounts(groups, gid);
  }

  lemma {:induction false} RemoveGroupOrder(groups: seq<Group>, gid: int)
    ensures forall g :: g in RemoveGroup(groups, gid) <==> g in groups && g.id != gid
    ensures IsSubsequence(RemoveGroup(groups, gid), groups)
    ensures |RemoveGroup(groups, gid)| == |groups| <==> !HasGroup(groups, gid)
    ensures !HasGroup(groups, gid) ==> RemoveGroup(groups, gid) == groups
    decreases |groups|
  {
    if groups != [] {
      var n := |groups| - 1;
      var pre := groups[..n];
      var r := RemoveGroup(groups, gid);
      var rp := RemoveGroup(pre, gid);
      RemoveGroupOrder(pre, gid);
      assert groups == pre + [groups[n]];
      if groups[n].id != gid {
        assert r == rp + [groups[n]];
        assert r[..|r| - 1] == rp;
      } else {
        assert r == rp;
        SubsequenceOfPrefix(rp, groups);
        assert HasGroup(groups, gid) by { assert groups[n].id == gid; }
      }
      HasGroupSnoc(groups, gid);
    }
  }

  /** The occurrences of each entry after removal. */
  lemma {:induction false} RemoveGroupCounts(groups: seq<Group>, gid: int)
    ensures forall g :: multiset(RemoveGroup(groups, gid))[g] == if g.id != gid then multiset(groups)[g] else 0
    decreases |groups|
  {
    if groups != [] {
      var n := |groups| - 1;
      var pre := groups[..n];
      var rp := RemoveGroup(pre, gid);
      RemoveGroupCounts(pre, gid);
      assert groups == pre + [groups[n]];
      assert multiset(groups) == multiset(pre) + multiset{groups[n]};
      if groups[n].id != gid {
        assert multiset(RemoveGroup(groups, gid)) == multiset(rp) + multiset{groups[n]};
      } else {
        assert RemoveGroup(groups, gid) == rp;
      }
    }
  }

  lemma HasGroupSnoc(groups: seq<Group>, gid: int)
    requires groups != []
    ensures HasGroup(groups, gid) <==>
              HasGroup(groups[..|groups| - 1], gid) || groups[|groups| - 1].id == gid
  {
    var n := |groups| - 1;
    var pre := groups[..n];
    if HasGroup(pre, gid) {
      var i :| 0 <= i < |pre| && pre[i].id == gid;
      assert groups[i] == pre[i];
    }
    if HasGroup(groups, gid) && groups[n].id != gid {
      var i :| 0 <= i < |groups| && groups[i].id == gid;
      assert i < n && pre[i] == groups[i];
    }
  }

  lemma SubsequenceOfPrefix(a: seq<Group>, b: seq<Group>)
    requires b != []
    requires IsSubsequence(a, b[..|b| - 1])
    ensures IsSubsequence(a, b)
  {
  }

  /** Removal keeps ids unique. */
  lemma {:induction false} RemoveKeepsUnique(groups: seq<Group>, gid: int)
    requires UniqueIds(groups)
    ensures UniqueIds(RemoveGroup(groups, gid))
    decreases |groups|
  {
    if groups != [] {
      var n := |groups| - 1;
      var pre := groups[..n];
      PrefixUnique(groups);
      RemoveKeepsUnique(pre, gid);
      var rp := RemoveGroup(pre, gid);
      if groups[n].id != gid {
        forall i | 0 <= i < |rp| ensures rp[i].id != groups[n].id {
          RemoveGroupElement(pre, gid, i);
          var k :| 0 <= k < |pre| && pre[k] == rp[i];
          assert groups[k] == pre[k];
        }
        assert RemoveGroup(groups, gid) == rp + [groups[n]];
        AppendUnique(rp, groups[n]);
      }
    }
  }

  lemma PrefixUnique(groups: seq<Group>)
    requires groups != [] && UniqueIds(groups)
    ensures UniqueIds(groups[..|groups| - 1])
  {
    var pre := groups[..|groups| - 1];
    forall i, j | 0 <= i < j < |pre| ensures pre[i].id != pre[j].id {
      assert pre[i] == groups[i] && pre[j] == groups[j];
    }
  }

  lemma RemoveGroupElement(groups: seq<Group>, gid: int, i: int)
    requires 0 <= i < |RemoveGroup(groups, gid)|
    ensures exists k :: 0 <= k < |groups| && groups[k] == RemoveGroup(groups, gid)[i]
  {
    RemoveGroupOrder(groups, gid);
    assert RemoveGroup(groups, gid)[i] in groups;
  }

  lemma AppendUnique(rs: seq<Group>, g: Group)
    requires UniqueIds(rs)
    requires forall i :: 0 <= i < |rs| ==> rs[i].id != g.id
    ensures UniqueIds(rs + [g])
  {
    var r := rs + [g];
    forall i, j | 0 <= i < j < |r| ensures r[i].id != r[j].id {
      assert r[i] == rs[i];
      if j < |rs| { assert r[j] == rs[j]; }
    }
  }

  /** Appending a group whose id is not yet present, as `/addgroup` does,
      keeps ids unique, and the new group is at the end. */
  lemma AddKeepsUnique(groups: seq<Group>, g: Group)
    requires UniqueIds(groups)
    requires !HasGroup(groups, g.id)
    ensures UniqueIds(groups + [g])
    ensures HasGroup(groups + [g], g.id)
  {
    forall i | 0 <= i < |groups| ensures groups[i].id != g.id {
    }
    AppendUnique(groups, g);
    assert (groups + [g])[|groups|] == g;
  }
}
