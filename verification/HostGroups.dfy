/**
 Host groups (internal/ansible/ansible.go): a list of groups, each with a parent, and the groups every host is in,
 rewritten in place. Saving to disk is left out.
 */
module HostGroups {
  import opened Lists

  datatype Group = Group(name: string, parent: string)
  datatype Host = Host(id: string, addr: string, groups: seq<string>)

  // ---- The forest ----

  predicate IsGroup(groups: seq<Group>, name: string) {
    exists i :: 0 <= i < |groups| && groups[i].name == name
  }

  /** Roots have no parent of their own: none at all, or the implicit group `all`. */
  predicate IsRoot(parent: string) {
    parent == "" || parent == "all"
  }

  /** Names are distinct and never those of the implicit roots, and a parent that is not a root comes earlier. */
  ghost predicate Forest(groups: seq<Group>) {
    && (forall i, j :: 0 <= i < j < |groups| ==> groups[i].name != groups[j].name)
    && (forall i :: 0 <= i < |groups| ==> !IsRoot(groups[i].name))
    && (forall i :: 0 <= i < |groups| ==> IsRoot(groups[i].parent) || IsGroup(groups[..i], groups[i].parent))
  }

  predicate KnownGroup(groups: seq<Group>, name: string) {
    IsRoot(name) || IsGroup(groups, name)
  }

  ghost predicate AllKnown(groups: seq<Group>, names: seq<string>) {
    forall k :: 0 <= k < |names| ==> KnownGroup(groups, names[k])
  }

  /** No host refers to a group that does not exist. */
  ghost predicate MembersKnown(groups: seq<Group>, hosts: seq<Host>) {
    forall i :: 0 <= i < |hosts| ==> AllKnown(groups, hosts[i].groups)
  }

  /** A chain of groups, each the child of the next. */
  ghost predicate Chain(groups: seq<Group>, path: seq<nat>) {
    && (forall k :: 0 <= k < |path| ==> path[k] < |groups|)
    && (forall k {:trigger path[k]} :: 0 <= k < |path| - 1 ==> groups[path[k]].parent == groups[path[k + 1]].name)
  }

  lemma ParentIsEarlier(groups: seq<Group>, child: nat, parent: nat)
    requires Forest(groups) && child < |groups| && parent < |groups| && groups[child].parent == groups[parent].name
    ensures parent < child
  {
    assert !IsRoot(groups[parent].name);
    var i :| 0 <= i < child && groups[..child][i].name == groups[child].parent;
    assert groups[i].name == groups[parent].name;
  }

  lemma ChainStep(groups: seq<Group>, path: seq<nat>, k: nat)
    requires Forest(groups) && Chain(groups, path) && k + 1 < |path|
    ensures path[k + 1] < path[k]
  {
    ParentIsEarlier(groups, path[k], path[k + 1]);
  }

  lemma {:induction false} StepsDown(path: seq<nat>, j: nat, k: nat)
    requires j < k < |path| && forall i: nat {:trigger path[i]} :: i + 1 < |path| ==> path[i + 1] < path[i]
    ensures path[k] + (k - j) <= path[j]
  {
    assert path[k] < path[k - 1];
    if j < k - 1 {
      StepsDown(path, j, k - 1);
    }
  }

  /** Going from child to parent only goes down the list: no group is its own ancestor, and every chain ends. */
  lemma ForestHasNoCycle(groups: seq<Group>, path: seq<nat>, j: nat, k: nat)
    requires Forest(groups) && Chain(groups, path) && j < k < |path|
    ensures path[k] + (k - j) <= path[j]
  {
    forall i: nat {:trigger path[i]} | i + 1 < |path| ensures path[i + 1] < path[i] {
      ChainStep(groups, path, i);
    }
    StepsDown(path, j, k);
  }

  // ---- What the operations make of lists ----

  /** A group without its parent, if that is the one removed. */
  function Orphaned(g: Group, name: string): Group {
    if g.parent == name then g.(parent := "") else g
  }

  function GroupRemoved(groups: seq<Group>, name: string): seq<Group> {
    if groups == [] then []
    else
      var g := groups[|groups| - 1];
      GroupRemoved(groups[..|groups| - 1], name) + (if g.name == name then [] else [Orphaned(g, name)])
  }

  function LeftGroup(h: Host, name: string): Host {
    h.(groups := Without(h.groups, name))
  }

  function JoinedGroup(h: Host, name: string): Host {
    if name in h.groups then h else h.(groups := h.groups + [name])
  }

  lemma RemovedSnoc(front: seq<Group>, g: Group, name: string)
    ensures GroupRemoved(front + [g], name)
         == if g.name == name then GroupRemoved(front, name) else GroupRemoved(front, name) + [Orphaned(g, name)]
  {
    assert (front + [g])[..|front|] == front;
  }

  lemma {:induction false} NoneRemoved(groups: seq<Group>, name: string)
    requires !IsGroup(groups, name)
    ensures |GroupRemoved(groups, name)| == |groups|
    ensures forall k :: 0 <= k < |groups| ==>
              GroupRemoved(groups, name)[k] == Group(groups[k].name, if groups[k].parent == name then "" else groups[k].parent)
  {
    if groups != [] {
      var front := groups[..|groups| - 1];
      assert forall i :: 0 <= i < |front| ==> front[i] == groups[i];
      NoneRemoved(front, name);
    }
  }

  /** One group is gone; the others keep their order and, unless it was the one removed, their parent. */
  ghost predicate OneRemoved(before: seq<Group>, after: seq<Group>, i: int, name: string) {
    && 0 <= i < |before| && before[i].name == name && |after| == |before| - 1
    && forall k :: 0 <= k < |after| ==>
         var g := before[if k < i then k else k + 1];
         after[k] == Group(g.name, if g.parent == name then "" else g.parent)
  }

  lemma {:induction false} RemovedAt(groups: seq<Group>, name: string) returns (i: nat)
    requires IsGroup(groups, name) && forall a, b :: 0 <= a < b < |groups| ==> groups[a].name != groups[b].name
    ensures OneRemoved(groups, GroupRemoved(groups, name), i, name)
  {
    var front, last := groups[..|groups| - 1], groups[|groups| - 1];
    assert groups == front + [last];
    if last.name == name {
      assert !IsGroup(front, name);
      NoneRemoved(front, name);
      i := |front|;
    } else {
      IsGroupAppend(front, last, name);
      i := RemovedAt(front, name);
    }
  }

  lemma {:induction false} RemovedNames(groups: seq<Group>, name: string, other: string)
    ensures IsGroup(GroupRemoved(groups, name), other) <==> IsGroup(groups, other) && other != name
  {
    if groups != [] {
      var front, g := groups[..|groups| - 1], groups[|groups| - 1];
      assert groups == front + [g];
      RemovedNames(front, name, other);
      RemovedSnoc(front, g, name);
      IsGroupAppend(front, g, other);
      if g.name != name {
        IsGroupAppend(GroupRemoved(front, name), Orphaned(g, name), other);
      }
    }
  }

  lemma IsGroupAppend(groups: seq<Group>, g: Group, name: string)
    ensures IsGroup(groups + [g], name) <==> IsGroup(groups, name) || g.name == name
  {
    var more := groups + [g];
    assert more[|groups|] == g;
    if i :| 0 <= i < |groups| && groups[i].name == name {
      assert more[i].name == name;
    }
  }

  lemma ForestAppend(groups: seq<Group>, g: Group)
    requires Forest(groups) && !IsGroup(groups, g.name) && !IsRoot(g.name)
    requires IsRoot(g.parent) || IsGroup(groups, g.parent)
    ensures Forest(groups + [g])
  {
    var more := groups + [g];
    forall i | 0 <= i < |more| ensures IsRoot(more[i].parent) || IsGroup(more[..i], more[i].parent) {
      if i < |groups| {
        assert more[..i] == groups[..i] && more[i] == groups[i];
      } else {
        assert more[..i] == groups;
      }
    }
  }

  lemma ForestFront(groups: seq<Group>, g: Group)
    requires Forest(groups + [g])
    ensures Forest(groups) && !IsGroup(groups, g.name) && !IsRoot(g.name)
    ensures IsRoot(g.parent) || IsGroup(groups, g.parent)
  {
    var more := groups + [g];
    assert more[..|groups|] == groups && more[|groups|] == g;
    forall i | 0 <= i < |groups| ensures IsRoot(groups[i].parent) || IsGroup(groups[..i], groups[i].parent) {
      assert more[..i] == groups[..i] && more[i] == groups[i];
    }
  }

  /** Compaction keeps the forest: the children of the removed group become roots, everyone else keeps its parent before it. */
  lemma {:induction false} RemovedForest(groups: seq<Group>, name: string)
    requires Forest(groups)
    ensures Forest(GroupRemoved(groups, name))
  {
    if groups != [] {
      var front, g := groups[..|groups| - 1], groups[|groups| - 1];
      assert groups == front + [g];
      ForestFront(front, g);
      RemovedForest(front, name);
      RemovedSnoc(front, g, name);
      if g.name != name {
        RemovedNames(front, name, g.name);
        RemovedNames(front, name, g.parent);
        ForestAppend(GroupRemoved(front, name), Orphaned(g, name));
      }
    }
  }

  lemma KnownAfterRemoval(groups: seq<Group>, h: Host, name: string)
    requires AllKnown(groups, h.groups)
    ensures AllKnown(GroupRemoved(groups, name), LeftGroup(h, name).groups)
  {
    var left := Without(h.groups, name);
    forall k | 0 <= k < |left| ensures KnownGroup(GroupRemoved(groups, name), left[k]) {
      WithoutMembers(h.groups, name, left[k]);
      assert left[k] in left;
      RemovedNames(groups, name, left[k]);
    }
  }

  lemma KnownAppend(groups: seq<Group>, g: Group, names: seq<string>)
    requires AllKnown(groups, names)
    ensures AllKnown(groups + [g], names)
  {
    forall k | 0 <= k < |names| ensures KnownGroup(groups + [g], names[k]) {
      IsGroupAppend(groups, g, names[k]);
    }
  }

  lemma KnownWithout(groups: seq<Group>, h: Host, name: string)
    requires AllKnown(groups, h.groups)
    ensures AllKnown(groups, LeftGroup(h, name).groups)
  {
    var left := Without(h.groups, name);
    forall k | 0 <= k < |left| ensures KnownGroup(groups, left[k]) {
      WithoutMembers(h.groups, name, left[k]);
      assert left[k] in left;
    }
  }

  predicate GroupNameChar(c: char) {
    'a' <= c <= 'z' || 'A' <= c <= 'Z' || '0' <= c <= '9' || c == '_' || c == '-' || c == '.'
  }

  predicate ValidGroupName(name: string) {
    name != "" && name != "all" && name != "ungrouped" && forall i :: 0 <= i < |name| ==> GroupNameChar(name[i])
  }

  /** Hosts of the given ids changed, the others as they were. */
  ghost predicate HostsChanged(before: seq<Host>, after: seq<Host>, ids: seq<string>, change: Host -> Host) {
    && |after| == |before|
    && forall i :: 0 <= i < |before| ==> after[i] == if before[i].id in ids then change(before[i]) else before[i]
  }

  /** Changing hosts into ones that refer to known groups only keeps them all known. */
  lemma MembersAfter(groups: seq<Group>, before: seq<Host>, after: seq<Host>, ids: seq<string>, change: Host -> Host)
    requires MembersKnown(groups, before) && HostsChanged(before, after, ids, change)
    requires forall i :: 0 <= i < |before| && AllKnown(groups, before[i].groups) ==> AllKnown(groups, change(before[i]).groups)
    ensures MembersKnown(groups, after)
  {
  }

  // ---- The manager ----

  /** A list compacted in place: read and write position on the same elements, and the rest cut off. */
  method Compact(names: seq<string>, name: string) returns (left: seq<string>)
    ensures left == Without(names, name)
  {
    var g, n, k := names, 0, 0;
    while k < |g|
      invariant 0 <= n <= k <= |g| == |names|
      invariant forall j :: k <= j < |g| ==> g[j] == names[j]
      invariant g[..n] == Without(names[..k], name)
    {
      assert names[..k + 1][..k] == names[..k];
      if g[k] != name {
        g := g[n := g[k]];
        n := n + 1;
      }
      k := k + 1;
    }
    assert names[..k] == names;
    left := g[..n];
  }

  class Manager {
    var groups: seq<Group>
    var hosts: seq<Host>

    ghost predicate Valid()
      reads this
    {
      Forest(groups)
    }

    ghost predicate Known()
      reads this
    {
      MembersKnown(groups, hosts)
    }

    /**
     Starts from the stored groups and hosts, and gives every host without an id one of the drawn ids. A good
     store makes a good start; so does an empty one.
     */
    constructor (storedGroups: seq<Group>, storedHosts: seq<Host>, drawn: nat -> string)
      ensures groups == storedGroups && |hosts| == |storedHosts|
      ensures forall i :: 0 <= i < |hosts| ==>
                hosts[i] == if storedHosts[i].id == "" then storedHosts[i].(id := drawn(i)) else storedHosts[i]
      ensures Forest(storedGroups) ==> Valid()
      ensures MembersKnown(storedGroups, storedHosts) ==> Known()
      ensures Forest([]) && MembersKnown([], [])
    {
      groups, hosts := storedGroups, storedHosts;
      new;
      var i := 0;
      while i < |hosts|
        invariant 0 <= i <= |hosts| == |storedHosts| && groups == storedGroups
        invariant forall k :: 0 <= k < i ==>
                    hosts[k] == if storedHosts[k].id == "" then storedHosts[k].(id := drawn(k)) else storedHosts[k]
        invariant forall k :: i <= k < |hosts| ==> hosts[k] == storedHosts[k]
      {
        if hosts[i].id == "" {
          hosts := hosts[i := hosts[i].(id := drawn(i))];
        }
        i := i + 1;
      }
    }

    method GroupExists(name: string) returns (found: bool)
      ensures found == IsGroup(groups, name)
    {
      var i := 0;
      while i < |groups|
        invariant 0 <= i <= |groups| && forall k :: 0 <= k < i ==> groups[k].name != name
      {
        if groups[i].name == name {
          return true;
        }
        i := i + 1;
      }
      return false;
    }

    /** Refused when the address is there already; groups are taken as they come. */
    method AddHost(h: Host, newId: string) returns (ok: bool)
      requires Valid()
      modifies this`hosts
      ensures Valid() && (old(Known()) && AllKnown(groups, h.groups) ==> Known())
      ensures ok <==> forall i :: 0 <= i < |old(hosts)| ==> old(hosts)[i].addr != h.addr
      ensures hosts == if ok then old(hosts) + [if h.id == "" then h.(id := newId) else h] else old(hosts)
    {
      var i := 0;
      while i < |hosts|
        invariant 0 <= i <= |hosts| && forall k :: 0 <= k < i ==> hosts[k].addr != h.addr
      {
        if hosts[i].addr == h.addr {
          return false;
        }
        i := i + 1;
      }
      hosts := hosts + [if h.id == "" then h.(id := newId) else h];
      return true;
    }

    method CreateHostGroup(name: string, parent: string) returns (ok: bool)
      requires Valid()
      modifies this`groups
      ensures Valid() && (old(Known()) ==> Known())
      ensures ok <==>
                && name != "" && name != "all" && name != "ungrouped"
                && (forall i :: 0 <= i < |name| ==> var c := name[i];
                      'a' <= c <= 'z' || 'A' <= c <= 'Z' || '0' <= c <= '9' || c in {'_', '-', '.'})
                && (forall i :: 0 <= i < |old(groups)| ==> old(groups)[i].name != name)
                && (parent != "" && parent != "all" ==> exists i :: 0 <= i < |old(groups)| && old(groups)[i].name == parent)
      ensures groups == if ok then old(groups) + [Group(name, parent)] else old(groups)
    {
      if !ValidGroupName(name) {
        return false;
      }
      var taken := GroupExists(name);
      if taken {
        return false;
      }
      if parent != "" && parent != "all" {
        var known := GroupExists(parent);
        if !known {
          return false;
        }
      }
      AppendGroup(Group(name, parent));
      return true;
    }

    method AppendGroup(g: Group)
      requires Valid() && !IsGroup(groups, g.name) && !IsRoot(g.name) && KnownGroup(groups, g.parent)
      modifies this`groups
      ensures Valid() && (old(Known()) ==> Known())
      ensures groups == old(groups) + [g]
    {
      ForestAppend(groups, g);
      if MembersKnown(groups, hosts) {
        forall i | 0 <= i < |hosts| ensures AllKnown(groups + [g], hosts[i].groups) {
          KnownAppend(groups, g, hosts[i].groups);
        }
      }
      groups := groups + [g];
    }

    /** Removes the group, makes its children roots, and takes every host out of it. */
    method RemoveHostGroup(name: string) returns (ok: bool)
      requires Valid()
      modifies this
      ensures Valid() && (old(Known()) ==> Known())
      ensures ok <==> exists i :: 0 <= i < |old(groups)| && old(groups)[i].name == name
      ensures if ok then exists i :: OneRemoved(old(groups), groups, i, name) else groups == old(groups)
      ensures |hosts| == |old(hosts)|
      ensures forall i :: 0 <= i < |hosts| ==>
                var h := old(hosts)[i];
                hosts[i] == if ok then Host(h.id, h.addr, Without(h.groups, name)) else h
    {
      ok := GroupExists(name);
      if !ok {
        return;
      }
      var at := RemovedAt(groups, name);
      RemovedForest(groups, name);
      if MembersKnown(groups, hosts) {
        forall i | 0 <= i < |hosts| ensures AllKnown(GroupRemoved(groups, name), LeftGroup(hosts[i], name).groups) {
          KnownAfterRemoval(groups, hosts[i], name);
        }
      }
      CompactGroups(name);
      LeaveEverywhere(name);
    }

    method CompactGroups(name: string)
      modifies this`groups
      ensures groups == GroupRemoved(old(groups), name)
    {
      var n, k := 0, 0;
      while k < |groups|
        invariant 0 <= n <= k <= |groups| == |old(groups)|
        invariant forall j :: k <= j < |groups| ==> groups[j] == old(groups)[j]
        invariant groups[..n] == GroupRemoved(old(groups)[..k], name)
      {
        assert old(groups)[..k + 1][..k] == old(groups)[..k];
        var g := groups[k];
        if g.name != name {
          if g.parent == name {
            g := g.(parent := "");
          }
          groups := groups[n := g];
          n := n + 1;
        }
        k := k + 1;
      }
      assert old(groups)[..k] == old(groups);
      groups := groups[..n];
    }

    method LeaveEverywhere(name: string)
      modifies this`hosts
      ensures |hosts| == |old(hosts)| && forall i :: 0 <= i < |hosts| ==> hosts[i] == LeftGroup(old(hosts)[i], name)
    {
      var i := 0;
      while i < |hosts|
        invariant 0 <= i <= |hosts| == |old(hosts)|
        invariant forall k :: 0 <= k < i ==> hosts[k] == LeftGroup(old(hosts)[k], name)
        invariant forall k :: i <= k < |hosts| ==> hosts[k] == old(hosts)[k]
      {
        var left := Compact(hosts[i].groups, name);
        hosts := hosts[i := hosts[i].(groups := left)];
        i := i + 1;
      }
    }

    /** Replaces the groups of the given hosts, if all are known and some host is found. */
    method SetHostsGroups(ids: seq<string>, names: seq<string>) returns (ok: bool)
      requires Valid()
      modifies this`hosts
      ensures Valid() && (old(Known()) ==> Known())
      ensures ok <==>
                && (forall k :: 0 <= k < |names| && names[k] != "" && names[k] != "all" ==>
                      exists j :: 0 <= j < |groups| && groups[j].name == names[k])
                && exists i :: 0 <= i < |old(hosts)| && old(hosts)[i].id in ids
      ensures !ok ==> hosts == old(hosts)
      ensures |hosts| == |old(hosts)|
      ensures ok ==> forall i :: 0 <= i < |hosts| ==>
                var h := old(hosts)[i];
                hosts[i] == if h.id in ids then Host(h.id, h.addr, names) else h
    {
      var k := 0;
      while k < |names|
        invariant unchanged(this) && 0 <= k <= |names| && forall j :: 0 <= j < k ==> KnownGroup(groups, names[j])
      {
        if names[k] != "" && names[k] != "all" {
          var known := GroupExists(names[k]);
          if !known {
            return false;
          }
        }
        k := k + 1;
      }
      var i := 0;
      ok := false;
      while i < |hosts|
        invariant 0 <= i <= |hosts| == |old(hosts)|
        invariant ok <==> exists k :: 0 <= k < i && old(hosts)[k].id in ids
        invariant !ok ==> hosts == old(hosts)
        invariant forall k :: 0 <= k < i ==> hosts[k] == if old(hosts)[k].id in ids then old(hosts)[k].(groups := names) else old(hosts)[k]
        invariant forall k :: i <= k < |hosts| ==> hosts[k] == old(hosts)[k]
      {
        if hosts[i].id in ids {
          hosts := hosts[i := hosts[i].(groups := names)];
          ok := true;
        }
        i := i + 1;
      }
      if MembersKnown(groups, old(hosts)) {
        MembersAfter(groups, old(hosts), hosts, ids, (h: Host) => h.(groups := names));
      }
    }

    /** Puts hosts into a group, which is made on the spot if there is none of that name; the roots need no joining. */
    method AddHostsToGroup(ids: seq<string>, name: string)
      requires Valid()
      modifies this
      ensures Valid() && (old(Known()) ==> Known())
      ensures groups == if name == "" || name == "all" || exists i :: 0 <= i < |old(groups)| && old(groups)[i].name == name
                        then old(groups)
                        else old(groups) + [Group(name, "")]
      ensures |hosts| == |old(hosts)|
      ensures forall i :: 0 <= i < |hosts| ==>
                var h := old(hosts)[i];
                hosts[i] == if h.id in ids && name !in h.groups && name != "" && name != "all"
                            then Host(h.id, h.addr, h.groups + [name]) else h
    {
      if name == "" || name == "all" {
        return;
      }
      var known := GroupExists(name);
      if !known {
        AppendGroup(Group(name, ""));
        IsGroupAppend(old(groups), Group(name, ""), name);
      }
      label Grown:
      var i := 0;
      while i < |hosts|
        invariant groups == old@Grown(groups)
        invariant 0 <= i <= |hosts| == |old(hosts)|
        invariant forall k :: 0 <= k < i ==> hosts[k] == if old(hosts)[k].id in ids then JoinedGroup(old(hosts)[k], name) else old(hosts)[k]
        invariant forall k :: i <= k < |hosts| ==> hosts[k] == old(hosts)[k]
      {
        if hosts[i].id in ids {
          var has := name in hosts[i].groups;
          if !has {
            hosts := hosts[i := hosts[i].(groups := hosts[i].groups + [name])];
          }
        }
        i := i + 1;
      }
      if MembersKnown(groups, old(hosts)) {
        MembersAfter(groups, old(hosts), hosts, ids, (h: Host) => JoinedGroup(h, name));
      }
    }

    /** Takes hosts out of a group; it fails, changing nothing, if no host left it. */
    method RemoveHostsFromGroup(ids: seq<string>, name: string) returns (ok: bool)
      requires Valid()
      modifies this`hosts
      ensures Valid() && (old(Known()) ==> Known())
      ensures ok <==> name != "" && exists i :: 0 <= i < |old(hosts)| && old(hosts)[i].id in ids && name in old(hosts)[i].groups
      ensures !ok ==> hosts == old(hosts)
      ensures |hosts| == |old(hosts)|
      ensures ok ==> forall i :: 0 <= i < |hosts| ==>
                var h := old(hosts)[i];
                hosts[i] == if h.id in ids then Host(h.id, h.addr, Without(h.groups, name)) else h
    {
      if name == "" {
        return false;
      }
      var i := 0;
      ok := false;
      while i < |hosts|
        invariant 0 <= i <= |hosts| == |old(hosts)|
        invariant ok <==> exists k :: 0 <= k < i && old(hosts)[k].id in ids && name in old(hosts)[k].groups
        invariant !ok ==> hosts == old(hosts)
        invariant forall k :: 0 <= k < i ==> hosts[k] == if old(hosts)[k].id in ids then LeftGroup(old(hosts)[k], name) else old(hosts)[k]
        invariant forall k :: i <= k < |hosts| ==> hosts[k] == old(hosts)[k]
      {
        if hosts[i].id in ids {
          var left := Compact(hosts[i].groups, name);
          ShorterIffMember(hosts[i].groups, name);
          if |left| != |hosts[i].groups| {
            hosts := hosts[i := hosts[i].(groups := left)];
            ok := true;
          }
        }
        i := i + 1;
      }
      if MembersKnown(groups, old(hosts)) {
        forall k | 0 <= k < |old(hosts)| ensures AllKnown(groups, LeftGroup(old(hosts)[k], name).groups) {
          KnownWithout(groups, old(hosts)[k], name);
        }
        MembersAfter(groups, old(hosts), hosts, ids, (h: Host) => LeftGroup(h, name));
      }
    }
  }

  /** Dropping a value shortens a list exactly if it was there. */
  lemma {:induction false} ShorterIffMember(s: seq<string>, x: string)
    ensures |Without(s, x)| <= |s| && (|Without(s, x)| < |s| <==> x in s)
    ensures x !in s ==> Without(s, x) == s
  {
    if s != [] {
      var front, last := s[..|s| - 1], s[|s| - 1];
      assert s == front + [last];
      ShorterIffMember(front, x);
    }
  }
}
