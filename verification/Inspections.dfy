/** What one inspection of a process generation looks at, for the two users of the census. */
module Inspections {
  import opened Basics
  import opened Census

  const REQUIRED_STABLE_PASSES := 3
  const REQUIRED_ALIAS_PASSES := 2
  const DELETED := " (deleted)"

  // ---------------------------------------------------------------- settlement

  /** Everything read under one /proc entry; a start time is read again after each vanishing-prone step. */
  datatype View = View(
    first: Option<nat>, namespace: Option<nat>, afterNamespace: Option<nat>,
    command: Option<string>, mounts: Option<seq<string>>, namespaceAgain: Option<nat>, afterBytes: Option<nat>,
    root: Option<string>, afterRoot: Option<nat>, cwd: Option<string>, afterCwd: Option<nat>, exe: Option<string>,
    descriptors: Option<seq<Option<string>>>, afterDescriptors: Option<nat>,
    lastNamespace: Option<nat>, last: Option<nat>)

  /** What is settled, and the observer with its ancestors, whose command lines may name the candidate. */
  datatype Request = Request(afterUnmount: bool, own: nat, targets: seq<string>, marker: string,
                             lineage: set<Generation>)

  function MarkerFor(q: Request, g: Generation): string {
    if g in q.lineage then "" else q.marker
  }

  function Undeleted(value: string): string {
    if |value| >= |DELETED| && value[|value| - |DELETED|..] == DELETED then value[..|value| - |DELETED|] else value
  }

  predicate RefersTo(value: string, targets: seq<string>) {
    exists t :: t in targets && (Undeleted(value) == t || t + "/" <= Undeleted(value))
  }

  predicate Refers(value: Option<string>, targets: seq<string>) {
    value.Some? && RefersTo(value.value, targets)
  }

  predicate Contains(text: string, word: string) {
    exists i :: 0 <= i <= |text| && word <= text[i..]
  }

  predicate MountRefers(mounts: seq<string>, targets: seq<string>) {
    exists m :: m in mounts && RefersTo(m, targets)
  }

  predicate DescriptorRefers(descriptors: seq<Option<string>>, targets: seq<string>) {
    exists d :: d in descriptors && Refers(d, targets)
  }

  /** A vanished answer about a process that is still there is an error; otherwise it is instability. */
  function Vanished(startAgain: Option<nat>, start: nat): Verdict {
    if startAgain == Some(start) then Reject else Unstable
  }

  /** `_inspect_generation`, in the order in which it reads and decides. */
  function SettlementVerdict(v: View, start: nat, q: Request, marker: string): Verdict {
    if v.first != Some(start) then Unstable
    else if v.namespace.None? then Vanished(v.afterNamespace, start)
    else if v.command.None? || v.mounts.None? then Vanished(v.afterBytes, start)
    else if v.namespaceAgain != v.namespace then Unstable
    else if marker != "" && Contains(v.command.value, marker) then Reject
    else if MountRefers(v.mounts.value, q.targets) && (q.afterUnmount || v.namespace.value != q.own) then Reject
    else if v.root.None? && v.afterRoot == Some(start) then Reject
    else if Refers(v.root, q.targets) then Reject
    else if v.cwd.None? && v.afterCwd == Some(start) then Reject
    else if Refers(v.cwd, q.targets) || Refers(v.exe, q.targets) then Reject
    else if v.descriptors.None? then Vanished(v.afterDescriptors, start)
    else if DescriptorRefers(v.descriptors.value, q.targets) then Reject
    else if v.namespace.value != q.own && None in v.descriptors.value then Unstable
    else if v.lastNamespace == v.namespace && v.last == Some(start) then Clean
    else Unstable
  }

  /** No observed path, mount, descriptor or command line of a stable process names a target. */
  predicate Unreferencing(v: View, start: nat, q: Request, marker: string) {
    && v.first == Some(start) && v.last == Some(start)
    && v.namespace.Some? && v.lastNamespace == v.namespace
    && v.command.Some? && (marker != "" ==> !Contains(v.command.value, marker))
    && v.mounts.Some? && (MountRefers(v.mounts.value, q.targets) ==> !q.afterUnmount && v.namespace.value == q.own)
    && !Refers(v.root, q.targets) && !Refers(v.cwd, q.targets) && !Refers(v.exe, q.targets)
    && v.descriptors.Some? && !DescriptorRefers(v.descriptors.value, q.targets)
    && (v.namespace.value != q.own ==> None !in v.descriptors.value)
  }

  /** The mount namespace, the command line and the mounts were read, all of one namespace. */
  predicate Readable(v: View) {
    v.namespace.Some? && v.command.Some? && v.mounts.Some? && v.namespaceAgain == v.namespace
  }

  /** Something read of the process names a target or the candidate. */
  predicate Referencing(v: View, q: Request, marker: string)
    requires Readable(v)
  {
    || (marker != "" && Contains(v.command.value, marker))
    || (MountRefers(v.mounts.value, q.targets) && (q.afterUnmount || v.namespace.value != q.own))
    || Refers(v.root, q.targets) || Refers(v.cwd, q.targets) || Refers(v.exe, q.targets)
    || (v.descriptors.Some? && DescriptorRefers(v.descriptors.value, q.targets))
  }

  /** Something could not be read although the process was still there. */
  predicate Hidden(v: View, start: nat) {
    || (v.namespace.None? && v.afterNamespace == Some(start))
    || (v.namespace.Some? && (v.command.None? || v.mounts.None?) && v.afterBytes == Some(start))
    || (Readable(v) && v.root.None? && v.afterRoot == Some(start))
    || (Readable(v) && v.cwd.None? && v.afterCwd == Some(start))
    || (Readable(v) && v.descriptors.None? && v.afterDescriptors == Some(start))
  }

  /**
   * An inspection refuses exactly when the process was the listed one at first and either hides
   * something while still there or refers to a target. It is clean exactly when the process was there
   * throughout, in one namespace, everything was read, and nothing refers to a target.
   */
  lemma SettlementVerdictExact(v: View, start: nat, q: Request, marker: string)
    ensures SettlementVerdict(v, start, q, marker) == Reject <==>
              v.first == Some(start) && (Hidden(v, start) || (Readable(v) && Referencing(v, q, marker)))
    ensures SettlementVerdict(v, start, q, marker) == Clean <==>
              && Unreferencing(v, start, q, marker) && v.namespaceAgain == v.namespace
              && (v.root.None? ==> v.afterRoot != Some(start)) && (v.cwd.None? ==> v.afterCwd != Some(start))
  {
  }

  lemma CleanIsUnreferencing(v: View, start: nat, q: Request, marker: string)
    requires SettlementVerdict(v, start, q, marker) == Clean
    ensures Unreferencing(v, start, q, marker)
  {
  }

  // ---------------------------------------------------------------- writable aliases

  datatype Mapping = Mapping(same: bool, shared: bool)
  datatype Descriptor = Gone | OtherFile | SameFile(readOnly: Option<bool>)

  datatype AliasView = AliasView(first: Option<nat>, mappings: Option<seq<Mapping>>,
                                 descriptors: Option<seq<Descriptor>>, last: Option<nat>)

  predicate WritableMapping(mappings: seq<Mapping>) {
    exists m :: m in mappings && m.same && m.shared
  }

  predicate WritableDescriptor(descriptors: seq<Descriptor>) {
    SameFile(Some(false)) in descriptors
  }

  /** One generation of `_writable_alias_sweep`. */
  function AliasVerdict(v: AliasView, start: nat): Verdict {
    if v.first != Some(start) || v.mappings.None? then Unstable
    else if WritableMapping(v.mappings.value) then Reject
    else if v.descriptors.None? then Unstable
    else if WritableDescriptor(v.descriptors.value) then Reject
    else if Gone in v.descriptors.value || SameFile(None) in v.descriptors.value || v.last != Some(start) then Unstable
    else Clean
  }

  /**
   * An alias inspection refuses exactly when the process was the listed one at first and has the file
   * mapped shared or open for writing; it is clean exactly when the process was there throughout, all
   * mappings and descriptors were read, and every descriptor of the file is read-only.
   */
  lemma AliasVerdictExact(v: AliasView, start: nat)
    ensures AliasVerdict(v, start) == Reject <==>
              && v.first == Some(start) && v.mappings.Some?
              && ((exists m :: m in v.mappings.value && m.same && m.shared)
                  || (v.descriptors.Some? && SameFile(Some(false)) in v.descriptors.value))
    ensures AliasVerdict(v, start) == Clean <==>
              && v.first == Some(start) && v.last == Some(start) && v.mappings.Some? && v.descriptors.Some?
              && (forall m :: m in v.mappings.value ==> !(m.same && m.shared))
              && (forall d :: d in v.descriptors.value ==> d == OtherFile || d == SameFile(Some(true)))
  {
    if v.descriptors.Some? {
      forall d | d in v.descriptors.value
        ensures d == OtherFile || d == SameFile(Some(true)) <==>
                  d != Gone && d != SameFile(None) && d != SameFile(Some(false))
      {
        match d
        case Gone =>
        case OtherFile =>
        case SameFile(None) =>
        case SameFile(Some(readOnly)) => assert d == SameFile(Some(true)) || d == SameFile(Some(false));
      }
    }
  }

  // ---------------------------------------------------------------- what acceptance means

  /** The scan may accept at this pass: the last `k` were stable, at no earlier pass were they, and none refused. */
  predicate AcceptedAt(passes: seq<Pass>, i: nat, k: nat) {
    && i < |passes| && Stable(passes, i, k) && (forall j :: 0 <= j < i ==> !Stable(passes, j, k))
    && (forall j :: 0 <= j <= i ==> !Refuses(passes[j]))
  }

  /** The verdicts of a pass were computed from what was seen of each listed generation. */
  predicate Witnessed(p: Pass, views: map<Generation, View>, q: Request) {
    forall g :: g in p.before ==>
      g in views && VerdictOf(p, g) == SettlementVerdict(views[g], g.start, q, MarkerFor(q, g))
  }

  /**
   * An accepted settlement scan: every generation of the final census was, in each of the last passes,
   * listed and seen in full without any reference to a target.
   */
  lemma SettlementSound(passes: seq<Pass>, views: seq<map<Generation, View>>, i: nat, k: nat, q: Request)
    requires i < |passes| == |views| && Stable(passes, i, k)
    requires forall j :: 0 <= j < |passes| ==> Witnessed(passes[j], views[j], q)
    ensures forall j, g :: i + 1 - k <= j <= i && g in passes[i].after ==>
              g in passes[j].after && g in views[j] && Unreferencing(views[j][g], g.start, q, MarkerFor(q, g))
  {
    forall j, g | i + 1 - k <= j <= i && g in passes[i].after
      ensures g in passes[j].after && g in views[j] && Unreferencing(views[j][g], g.start, q, MarkerFor(q, g))
    {
      assert Covers(passes[j], g);
      assert Witnessed(passes[j], views[j], q);
      CleanIsUnreferencing(views[j][g], g.start, q, MarkerFor(q, g));
    }
  }

  predicate AliasWitnessed(p: Pass, views: map<Generation, AliasView>) {
    forall g :: g in p.before ==> g in views && VerdictOf(p, g) == AliasVerdict(views[g], g.start)
  }

  /** Likewise for the alias proof: no writable mapping or descriptor in any of the last passes. */
  lemma AliasSound(passes: seq<Pass>, views: seq<map<Generation, AliasView>>, i: nat, k: nat)
    requires i < |passes| == |views| && Stable(passes, i, k)
    requires forall j :: 0 <= j < |passes| ==> AliasWitnessed(passes[j], views[j])
    ensures forall j, g :: i + 1 - k <= j <= i && g in passes[i].after ==>
              && g in passes[j].after && g in views[j]
              && views[j][g].mappings.Some? && !WritableMapping(views[j][g].mappings.value)
              && views[j][g].descriptors.Some? && !WritableDescriptor(views[j][g].descriptors.value)
  {
    forall j, g | i + 1 - k <= j <= i && g in passes[i].after
      ensures g in passes[j].after && g in views[j]
      ensures views[j][g].mappings.Some? && !WritableMapping(views[j][g].mappings.value)
      ensures views[j][g].descriptors.Some? && !WritableDescriptor(views[j][g].descriptors.value)
    {
      assert Covers(passes[j], g);
      assert AliasWitnessed(passes[j], views[j]);
    }
  }

  /** A listed generation that no inspection ever found clean is never part of an accepted census. */
  lemma UncleanNeverAccepted(passes: seq<Pass>, i: nat, k: nat, g: Generation)
    requires i < |passes| && k >= 1 && g in passes[i].after
    requires VerdictOf(passes[i], g) != Clean
    ensures !Stable(passes, i, k)
  {
    assert !Covers(passes[i], g);
  }

  /** The settlement scan over what was seen, three stable passes. */
  method SettlementScan(passes: seq<Pass>, views: seq<map<Generation, View>>, q: Request)
    returns (accepted: Option<nat>)
    requires |passes| == |views| && forall j :: 0 <= j < |passes| ==> Witnessed(passes[j], views[j], q)
    ensures accepted.Some? ==>
              && 2 <= accepted.value < |passes|
              && forall j, g :: accepted.value - 2 <= j <= accepted.value && g in passes[accepted.value].after ==>
                   g in passes[j].after && g in views[j] && Unreferencing(views[j][g], g.start, q, MarkerFor(q, g))
    ensures forall i: nat :: accepted == Some(i) <==> AcceptedAt(passes, i, 3)
  {
    var result := Scan(passes, REQUIRED_STABLE_PASSES);
    match result {
      case Accepted(i) =>
        SettlementSound(passes, views, i, REQUIRED_STABLE_PASSES, q);
        accepted := Some(i);
      case Refused(i, _) =>
        assert Refuses(passes[i]);
        accepted := None;
      case NotConverged(_) =>
        accepted := None;
    }
  }

  /** The alias proof, two stable passes, refused when the held file itself changed meanwhile. */
  method AliasScan(passes: seq<Pass>, views: seq<map<Generation, AliasView>>, changed: bool)
    returns (accepted: Option<nat>)
    requires |passes| == |views| && forall j :: 0 <= j < |passes| ==> AliasWitnessed(passes[j], views[j])
    ensures forall i: nat :: accepted == Some(i) <==> !changed && AcceptedAt(passes, i, 2)
    ensures accepted.Some? ==>
              && !changed && 1 <= accepted.value < |passes|
              && forall j, g :: accepted.value - 1 <= j <= accepted.value && g in passes[accepted.value].after ==>
                   && g in passes[j].after && g in views[j]
                   && views[j][g].mappings.Some? && !WritableMapping(views[j][g].mappings.value)
                   && views[j][g].descriptors.Some? && !WritableDescriptor(views[j][g].descriptors.value)
  {
    var result := Scan(passes, REQUIRED_ALIAS_PASSES);
    match result {
      case Accepted(i) =>
        if changed {
          return None;
        }
        AliasSound(passes, views, i, REQUIRED_ALIAS_PASSES);
        accepted := Some(i);
      case Refused(i, _) =>
        assert Refuses(passes[i]);
        accepted := None;
      case NotConverged(_) =>
        accepted := None;
    }
  }
}
