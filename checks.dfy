/**
 * The four security rules of the scanner. Each takes in-memory cluster objects
 * and returns diagnostic strings tagged with the rule's identifier.
 *
 * K01 and K10 build their result by pushing onto a list inside a loop over
 * the pod's containers; they are methods, each proved equal to a recursive
 * specification function about which the rule's properties are proved.
 * K03 and K07 are single conditionals and are functions.
 */
module Checks {
  import opened Wrappers
  import opened Strings
  import opened Resources

  // =====================================================================
  // K01: insecure workload configurations
  // =====================================================================

  const NoSecurityContextDefined := "has no security context defined"
  const NoRunAsNonRootSetting := "has no runAsNonRoot setting"
  const MayRunAsRoot := "may run as root (runAsNonRoot is false)"
  const RunningPrivileged := "is running in privileged mode"

  /** The four things K01 can say about a container. */
  predicate IsK01Issue(what: string) {
    what == NoSecurityContextDefined || what == NoRunAsNonRootSetting
    || what == MayRunAsRoot || what == RunningPrivileged
  }

  /** The common head of every K01 warning about `container` of `pod`. */
  function K01Prefix(pod: string, container: string): string {
    "[K01] Pod '" + pod + "' container '" + container + "' "
  }

  function K01Warning(pod: string, container: string, what: string): string {
    K01Prefix(pod, container) + what
  }

  /** A container that K01 has nothing to say about. */
  predicate Hardened(c: Container) {
    && c.securityContext.Some?
    && c.securityContext.value.runAsNonRoot == Some(true)
    && c.securityContext.value.privileged != Some(true)
  }

  /** What the runAsNonRoot check says: unset and false are each reported, true is not. */
  function RunAsNonRootWarnings(pod: string, container: string, runAsNonRoot: Option<bool>): (ws: seq<string>)
    ensures |ws| <= 1
    ensures ws == [] <==> runAsNonRoot == Some(true)
    ensures ws != [] ==>
      ws[0] == K01Warning(pod, container, if runAsNonRoot.None? then NoRunAsNonRootSetting else MayRunAsRoot)
  {
    match runAsNonRoot
    case None => [K01Warning(pod, container, NoRunAsNonRootSetting)]
    case Some(nonRoot) => if nonRoot then [] else [K01Warning(pod, container, MayRunAsRoot)]
  }

  /** What the privileged check says: only an explicit true is reported. */
  function PrivilegedWarnings(pod: string, container: string, privileged: Option<bool>): (ws: seq<string>)
    ensures |ws| <= 1
    ensures ws != [] <==> privileged == Some(true)
    ensures ws != [] ==> ws[0] == K01Warning(pod, container, RunningPrivileged)
  {
    if privileged == Some(true) then [K01Warning(pod, container, RunningPrivileged)] else []
  }

  /**
   * The warnings one container contributes, in the order the checks run:
   * the runAsNonRoot check, then the privileged check; or the single
   * "no security context" warning when there is nothing to check.
   */
  function ContainerWarnings(pod: string, c: Container): (ws: seq<string>)
    ensures |ws| <= 2
  {
    match c.securityContext
    case None => [K01Warning(pod, c.name, NoSecurityContextDefined)]
    case Some(sc) =>
      RunAsNonRootWarnings(pod, c.name, sc.runAsNonRoot) + PrivilegedWarnings(pod, c.name, sc.privileged)
  }

  /** The per-container warnings of `cs`, concatenated in container order. */
  function ContainersWarnings(pod: string, cs: seq<Container>): (ws: seq<string>)
    ensures |ws| <= 2 * |cs|
  {
    if cs == [] then [] else ContainerWarnings(pod, cs[0]) + ContainersWarnings(pod, cs[1..])
  }

  /** What K01 reports for a pod. */
  function InsecureWorkloadWarnings(pod: Pod): (ws: seq<string>)
    ensures |ws| <= 2 * |PodContainers(pod)|
    ensures pod.spec.None? ==> ws == []
  {
    ContainersWarnings(DisplayName(pod.metadata), PodContainers(pod))
  }

  /** K01, as the source runs it: one pass over the containers, pushing warnings. */
  method AnalyzePodInsecureWorkloads(pod: Pod) returns (warnings: seq<string>)
    ensures warnings == InsecureWorkloadWarnings(pod)
    ensures |warnings| <= 2 * |PodContainers(pod)|
  {
    warnings := [];
    var podName := DisplayName(pod.metadata);
    if pod.spec.Some? {
      var containers := pod.spec.value.containers;
      for i := 0 to |containers|
        invariant warnings == ContainersWarnings(podName, containers[..i])
      {
        var container := containers[i];
        var containerName := container.name;
        ghost var before := warnings;
        if container.securityContext.Some? {
          var sc := container.securityContext.value;
          if sc.runAsNonRoot.Some? {
            if !sc.runAsNonRoot.value {
              warnings := warnings + [K01Warning(podName, containerName, MayRunAsRoot)];
            }
          } else {
            warnings := warnings + [K01Warning(podName, containerName, NoRunAsNonRootSetting)];
          }
          ghost var afterRoot := warnings;
          assert afterRoot == before + RunAsNonRootWarnings(podName, containerName, sc.runAsNonRoot);
          if sc.privileged.Some? {
            if sc.privileged.value {
              warnings := warnings + [K01Warning(podName, containerName, RunningPrivileged)];
            }
          }
          assert warnings == afterRoot + PrivilegedWarnings(podName, containerName, sc.privileged);
          AppendAssociative(before, RunAsNonRootWarnings(podName, containerName, sc.runAsNonRoot),
            PrivilegedWarnings(podName, containerName, sc.privileged));
        } else {
          warnings := warnings + [K01Warning(podName, containerName, NoSecurityContextDefined)];
        }
        assert warnings == before + ContainerWarnings(podName, container);
        ContainersWarningsSnoc(podName, containers, i);
      }
      assert containers[..|containers|] == containers;
    }
    ImageWarningsPerImaged(DisplayName(pod.metadata), PodContainers(pod));
  }

  lemma AppendAssociative(a: seq<string>, b: seq<string>, c: seq<string>)
    ensures (a + b) + c == a + (b + c)
  {
  }

  /** K01 on a concatenation of container lists is the concatenation of the results. */
  lemma {:induction false} ContainersWarningsAppend(pod: string, a: seq<Container>, b: seq<Container>)
    ensures ContainersWarnings(pod, a + b) == ContainersWarnings(pod, a) + ContainersWarnings(pod, b)
  {
    if a == [] {
      assert a + b == b;
    } else {
      assert (a + b)[1..] == a[1..] + b;
      ContainersWarningsAppend(pod, a[1..], b);
    }
  }

  /** Extending a container prefix by one container appends that container's warnings. */
  lemma ContainersWarningsSnoc(pod: string, cs: seq<Container>, i: nat)
    requires i < |cs|
    ensures ContainersWarnings(pod, cs[..i + 1]) == ContainersWarnings(pod, cs[..i]) + ContainerWarnings(pod, cs[i])
  {
    ContainersWarningsAppend(pod, cs[..i], [cs[i]]);
    assert cs[..i + 1] == cs[..i] + [cs[i]];
  }

  /** Container `k`'s warnings sit, as a block, between those of the containers before and after it. */
  lemma ContainersWarningsAt(pod: string, cs: seq<Container>, k: nat)
    requires k < |cs|
    ensures ContainersWarnings(pod, cs) ==
      ContainersWarnings(pod, cs[..k]) + ContainerWarnings(pod, cs[k]) + ContainersWarnings(pod, cs[k + 1..])
  {
    assert cs == cs[..k] + ([cs[k]] + cs[k + 1..]);
    ContainersWarningsAppend(pod, cs[..k], [cs[k]] + cs[k + 1..]);
    assert ([cs[k]] + cs[k + 1..])[1..] == cs[k + 1..];
  }

  /** For a fixed pod and container, different issues give different warnings. */
  lemma K01WarningInjective(pod: string, container: string, a: string, b: string)
    ensures K01Warning(pod, container, a) == K01Warning(pod, container, b) ==> a == b
  {
    var p := K01Prefix(pod, container);
    assert (p + a)[|p|..] == a;
    assert (p + b)[|p|..] == b;
  }

  /** The four issue texts are pairwise distinct. */
  lemma K01IssuesDistinct()
    ensures NoSecurityContextDefined != NoRunAsNonRootSetting
    ensures NoSecurityContextDefined != MayRunAsRoot
    ensures NoSecurityContextDefined != RunningPrivileged
    ensures NoRunAsNonRootSetting != MayRunAsRoot
    ensures NoRunAsNonRootSetting != RunningPrivileged
    ensures MayRunAsRoot != RunningPrivileged
  {

  }

  /** The outcomes of the K01 checks for one container, case by case. */
  lemma ContainerOutcomes(pod: string, c: Container)
    ensures c.securityContext.None? ==>
      ContainerWarnings(pod, c) == [K01Warning(pod, c.name, NoSecurityContextDefined)]
    ensures c.securityContext.Some? && c.securityContext.value.runAsNonRoot.None? ==>
      |ContainerWarnings(pod, c)| >= 1 &&
      ContainerWarnings(pod, c)[0] == K01Warning(pod, c.name, NoRunAsNonRootSetting)
    ensures c.securityContext == Some(SecurityContext(None, Some(false))) ==>
      ContainerWarnings(pod, c) == [K01Warning(pod, c.name, NoRunAsNonRootSetting)]
    ensures c.securityContext == Some(SecurityContext(Some(false), Some(true))) ==>
      ContainerWarnings(pod, c) ==
        [K01Warning(pod, c.name, MayRunAsRoot), K01Warning(pod, c.name, RunningPrivileged)]
    ensures Hardened(c) <==> ContainerWarnings(pod, c) == []
  {
  }

  /**
   * Each issue is reported for a container exactly when its condition holds,
   * and nothing else is ever reported for it.
   */
  lemma ContainerWarningsExact(pod: string, c: Container)
    ensures var ws := ContainerWarnings(pod, c);
      && (K01Warning(pod, c.name, NoSecurityContextDefined) in ws <==> c.securityContext.None?)
      && (K01Warning(pod, c.name, NoRunAsNonRootSetting) in ws <==>
            c.securityContext.Some? && c.securityContext.value.runAsNonRoot.None?)
      && (K01Warning(pod, c.name, MayRunAsRoot) in ws <==>
            c.securityContext.Some? && c.securityContext.value.runAsNonRoot == Some(false))
      && (K01Warning(pod, c.name, RunningPrivileged) in ws <==>
            c.securityContext.Some? && c.securityContext.value.privileged == Some(true))
      && (forall i :: 0 <= i < |ws| ==>
            exists what :: IsK01Issue(what) && ws[i] == K01Warning(pod, c.name, what))
  {

  }

  /** Within one container, a runAsNonRoot warning always comes before the privileged warning. */
  lemma RunAsNonRootBeforePrivileged(pod: string, c: Container)
    ensures var ws := ContainerWarnings(pod, c);
      forall i, j :: 0 <= i < |ws| && 0 <= j < |ws|
        && (ws[i] == K01Warning(pod, c.name, NoRunAsNonRootSetting)
            || ws[i] == K01Warning(pod, c.name, MayRunAsRoot))
        && ws[j] == K01Warning(pod, c.name, RunningPrivileged)
        ==> i < j
  {

  }

  /** Every K01 warning names the pod and one of its containers. */
  lemma {:induction false} ContainersWarningsNamed(pod: string, cs: seq<Container>)
    ensures var ws := ContainersWarnings(pod, cs);
      forall i :: 0 <= i < |ws| ==>
        exists k :: 0 <= k < |cs| && IsPrefix(K01Prefix(pod, cs[k].name), ws[i])
  {
    if cs != [] {
      ContainersWarningsNamed(pod, cs[1..]);
      var head := ContainerWarnings(pod, cs[0]);
      var ws := ContainersWarnings(pod, cs);
      forall i | 0 <= i < |ws|
        ensures exists k :: 0 <= k < |cs| && IsPrefix(K01Prefix(pod, cs[k].name), ws[i])
      {
        if i < |head| {
          assert ws[i] == head[i];
          ContainerWarningsExact(pod, cs[0]);
          var what :| IsK01Issue(what) && head[i] == K01Warning(pod, cs[0].name, what);
          assert IsPrefix(K01Prefix(pod, cs[0].name), ws[i]);
        } else {
          assert ws[i] == ContainersWarnings(pod, cs[1..])[i - |head|];
          var k :| 0 <= k < |cs[1..]| && IsPrefix(K01Prefix(pod, cs[1..][k].name), ws[i]);
          assert cs[1..][k] == cs[k + 1];
        }
      }
    }
  }

  /** A pod gets no K01 warning exactly when every one of its containers is hardened. */
  lemma {:induction false} NoWarningsIffAllHardened(pod: string, cs: seq<Container>)
    ensures ContainersWarnings(pod, cs) == [] <==> forall k :: 0 <= k < |cs| ==> Hardened(cs[k])
  {
    if cs != [] {
      NoWarningsIffAllHardened(pod, cs[1..]);
      ContainerOutcomes(pod, cs[0]);
      if forall k :: 0 <= k < |cs[1..]| ==> Hardened(cs[1..][k]) {
        assert forall k :: 1 <= k < |cs| ==> cs[k] == cs[1..][k - 1];
      } else {
        var k :| 0 <= k < |cs[1..]| && !Hardened(cs[1..][k]);
        assert cs[1..][k] == cs[k + 1];
      }
    }
  }

  /** Every K01 warning about a pod without a name calls it "<unknown>". */
  lemma UnnamedPodIsUnknown(pod: Pod)
    requires pod.metadata.name.None?
    ensures var ws, cs := InsecureWorkloadWarnings(pod), PodContainers(pod);
      forall i :: 0 <= i < |ws| ==>
        exists k :: 0 <= k < |cs| && IsPrefix(K01Prefix("<unknown>", cs[k].name), ws[i])
  {
    var cs := PodContainers(pod);
    assert DisplayName(pod.metadata) == "<unknown>";
    assert InsecureWorkloadWarnings(pod) == ContainersWarnings("<unknown>", cs);
    ContainersWarningsNamed("<unknown>", cs);
  }

  // =====================================================================
  // K03: overly permissive RBAC configurations
  // =====================================================================

  const ClusterAdmin := "cluster-admin"

  /** "cluster-admin" is already lowercase. */
  lemma ClusterAdminIsLowercase()
    ensures ToLower(ClusterAdmin) == ClusterAdmin
  {
    ToLowerOfLower(ClusterAdmin);
  }

  function RbacWarning(binding: string, role: string): string {
    "[K03] RoleBinding '" + binding + "' binds a high-privilege ClusterRole '" + role + "'"
  }

  /**
   * K03: a binding is flagged exactly when it refers to a ClusterRole (exact,
   * case-sensitive kind) whose lowercased name contains "cluster-admin".
   */
  function AnalyzeRoleBinding(rb: RoleBinding): (r: Option<string>)
    ensures r.Some? <==> rb.roleRef.kind == "ClusterRole" && Occurs(ToLower(rb.roleRef.name), ClusterAdmin)
    ensures r.Some? ==> r.value == RbacWarning(DisplayName(rb.metadata), rb.roleRef.name)
  {
    if rb.roleRef.kind == "ClusterRole" && Contains(ToLower(rb.roleRef.name), ClusterAdmin) then
      Some(RbacWarning(DisplayName(rb.metadata), rb.roleRef.name))
    else
      None
  }

  /** A K03 warning names the role exactly as the binding spells it. */
  lemma FlaggedNamesRole(rb: RoleBinding)
    ensures AnalyzeRoleBinding(rb).Some? ==> Contains(AnalyzeRoleBinding(rb).value, rb.roleRef.name)
  {
    ContainsMiddle("[K03] RoleBinding '" + DisplayName(rb.metadata) + "' binds a high-privilege ClusterRole '",
      rb.roleRef.name, "'");
  }

  /** A binding to the ClusterRole "cluster-admin" itself is flagged, and the warning names it. */
  lemma ClusterAdminBindingFlagged(binding: ObjectMeta)
    ensures var r := AnalyzeRoleBinding(RoleBinding(binding, RoleRef("ClusterRole", ClusterAdmin)));
      r.Some? && Contains(r.value, ClusterAdmin)
  {
    ClusterAdminIsLowercase();
    assert IsPrefix(ClusterAdmin, ClusterAdmin);
    FlaggedNamesRole(RoleBinding(binding, RoleRef("ClusterRole", ClusterAdmin)));
  }

  /** The name test ignores case: names equal up to case are treated alike. */
  lemma RoleBindingCaseInsensitive(binding: ObjectMeta, kind: string, n1: string, n2: string)
    requires ToLower(n1) == ToLower(n2)
    ensures AnalyzeRoleBinding(RoleBinding(binding, RoleRef(kind, n1))).Some?
        == AnalyzeRoleBinding(RoleBinding(binding, RoleRef(kind, n2))).Some?
  {
  }

  /** Any kind other than exactly "ClusterRole" is never flagged, whatever the name. */
  lemma OnlyClusterRolesFlagged(rb: RoleBinding)
    requires rb.roleRef.kind != "ClusterRole"
    ensures AnalyzeRoleBinding(rb) == None
  {
  }

  /** A ClusterRole whose name holds "cluster-admin" in any mix of case is flagged. */
  lemma ClusterAdminAnyCaseFlagged(binding: ObjectMeta, a: string, mid: string, b: string)
    requires ToLower(mid) == ClusterAdmin
    ensures AnalyzeRoleBinding(RoleBinding(binding, RoleRef("ClusterRole", a + mid + b))).Some?
  {
    var name := a + mid + b;
    var lower := ToLower(name);
    assert lower[|a|..|a| + |mid|] == ToLower(mid);
    assert OccursAt(lower, ClusterAdmin, |a|);
  }

  /** Only the case of letters is ignored: a shouting, prefixed name is still flagged. */
  lemma ShoutedClusterAdminFlagged(binding: ObjectMeta)
    ensures AnalyzeRoleBinding(RoleBinding(binding, RoleRef("ClusterRole", "My-" + "CLUSTER-ADMIN"))).Some?
  {
    assert ToLower("CLUSTER-ADMIN") == ClusterAdmin;
    ClusterAdminAnyCaseFlagged(binding, "My-", "CLUSTER-ADMIN", []);
    assert "My-" + "CLUSTER-ADMIN" + [] == "My-" + "CLUSTER-ADMIN";
  }

  // =====================================================================
  // K07: missing network segmentation controls
  // =====================================================================

  /** The advice line, written in pieces so that the verifier can look into it. */
  const NoPoliciesAdvice :=
    "[K07] " + "No NetworkPolicies found" + ". Consider implementing network segmentation controls."

  // The "Found" line's text around the count, split where a test looks into it.
  const FoundHead := "[K07] " + "Found "
  const FoundTail := " NetworkPolicy" + " object(s)."

  function PoliciesFound(n: nat): string {
    FoundHead + NatToString(n) + FoundTail
  }

  /** K07 always yields one summary line: the advice when there are no policies, else their count. */
  function AnalyzeNetworkPolicies(nps: seq<NetworkPolicy>): (r: Option<string>)
    ensures r.Some?
    ensures |nps| == 0 ==> r.value == NoPoliciesAdvice
    ensures |nps| > 0 ==> r.value == PoliciesFound(|nps|)
  {
    if |nps| == 0 then Some(NoPoliciesAdvice)
    else Some(PoliciesFound(|nps|))
  }

  lemma Regroup(a: string, b: string, c: string, d: string, e: string)
    ensures (a + b) + c + (d + e) == a + (b + c + d) + e
  {
  }

  /** A "Found" line states the count in words. */
  lemma PoliciesFoundMentionsCount(n: nat)
    ensures Contains(PoliciesFound(n), "Found " + NatToString(n) + " NetworkPolicy")
  {
    var d := NatToString(n);
    Regroup("[K07] ", "Found ", d, " NetworkPolicy", " object(s).");
    ContainsMiddle("[K07] ", "Found " + NatToString(n) + " NetworkPolicy", " object(s).");
  }

  /** The count can be read back from a "Found" line. */
  lemma PoliciesFoundCount(n: nat)
    ensures var m := PoliciesFound(n);
      |m| > |FoundHead| + |FoundTail|
      && AllDigits(m[|FoundHead|..|m| - |FoundTail|])
      && ParseDecimal(m[|FoundHead|..|m| - |FoundTail|]) == n
  {
    var m := PoliciesFound(n);
    assert m[|FoundHead|..|m| - |FoundTail|] == NatToString(n);
    ParseNatToString(n);
  }

  /** Two namespaces get the same K07 line exactly when they hold equally many policies. */
  lemma NetworkPoliciesSameLineIffSameCount(a: seq<NetworkPolicy>, b: seq<NetworkPolicy>)
    ensures AnalyzeNetworkPolicies(a) == AnalyzeNetworkPolicies(b) <==> |a| == |b|
  {
    if AnalyzeNetworkPolicies(a) == AnalyzeNetworkPolicies(b) {
      assert forall n: nat :: PoliciesFound(n)[6] == FoundHead[6];
      assert FoundHead[6] == 'F' && NoPoliciesAdvice[6] == 'N';
      if |a| > 0 && |b| > 0 {
        PoliciesFoundCount(|a|);
        PoliciesFoundCount(|b|);
      }
    }
  }

  // =====================================================================
  // K10: outdated components (reporting pass over container images)
  // =====================================================================

  function ImageWarning(pod: string, container: string, image: string): string {
    "[K10] Pod '" + pod + "' container '" + container + "' is running image '" + image + "'"
  }

  /** The containers of `cs` that name an image, in their original order. */
  function ImagedContainers(cs: seq<Container>): (r: seq<Container>)
    ensures |r| <= |cs|
    ensures forall k :: 0 <= k < |r| ==> r[k].image.Some? && r[k] in cs
    ensures forall c :: c in cs && c.image.Some? ==> c in r
  {
    if cs == [] then []
    else (if cs[0].image.Some? then [cs[0]] else []) + ImagedContainers(cs[1..])
  }

  /** Keeping the imaged containers of two lists placed one after the other keeps their order. */
  lemma {:induction false} ImagedContainersAppend(a: seq<Container>, b: seq<Container>)
    ensures ImagedContainers(a + b) == ImagedContainers(a) + ImagedContainers(b)
  {
    if a == [] {
      assert a + b == b;
    } else {
      assert (a + b)[1..] == a[1..] + b;
      ImagedContainersAppend(a[1..], b);
    }
  }

  /** Each imaged container is kept as many times as it occurs; no other is kept. */
  lemma {:induction false} ImagedContainersCount(cs: seq<Container>, c: Container)
    ensures multiset(ImagedContainers(cs))[c] == if c.image.Some? then multiset(cs)[c] else 0
  {
    if cs != [] {
      assert cs == [cs[0]] + cs[1..];
      ImagedContainersCount(cs[1..], c);
    }
  }

  /** A single container is kept exactly when it names an image. */
  lemma ImagedContainersSingle(c: Container)
    ensures ImagedContainers([c]) == if c.image.Some? then [c] else []
  {
    assert [c][1..] == [];
  }

  /** The line one container contributes: one when it names an image, none otherwise. */
  function ContainerImageWarnings(pod: string, c: Container): (ws: seq<string>)
    ensures |ws| == if c.image.Some? then 1 else 0
    ensures c.image.Some? ==> ws[0] == ImageWarning(pod, c.name, c.image.value)
  {
    match c.image
    case Some(image) => [ImageWarning(pod, c.name, image)]
    case None => []
  }

  /** One line per imaged container, in container order. */
  function ImageWarnings(pod: string, cs: seq<Container>): (ws: seq<string>)
    ensures |ws| <= |cs|
  {
    if cs == [] then [] else ContainerImageWarnings(pod, cs[0]) + ImageWarnings(pod, cs[1..])
  }

  /** Processing one more container appends exactly that container's line, if any. */
  lemma ImageWarningsSnoc(pod: string, cs: seq<Container>, i: nat)
    requires i < |cs|
    ensures ImageWarnings(pod, cs[..i + 1]) == ImageWarnings(pod, cs[..i]) + ContainerImageWarnings(pod, cs[i])
  {
    assert cs[..i + 1] == cs[..i] + [cs[i]];
    ImageWarningsAppend(pod, cs[..i], [cs[i]]);
    assert [cs[i]][1..] == [];
  }

  /** What K10 reports for a pod. */
  function OutdatedComponentWarnings(pod: Pod): (ws: seq<string>)
    ensures |ws| <= |PodContainers(pod)|
    ensures pod.spec.None? ==> ws == []
  {
    ImageWarnings(DisplayName(pod.metadata), PodContainers(pod))
  }

  /** K10, as the source runs it: one pass over the containers, pushing a line per image. */
  method AnalyzeOutdatedComponents(pod: Pod) returns (warnings: seq<string>)
    ensures warnings == OutdatedComponentWarnings(pod)
    ensures |warnings| == |ImagedContainers(PodContainers(pod))|
  {
    warnings := [];
    var podName := DisplayName(pod.metadata);
    if pod.spec.Some? {
      var containers := pod.spec.value.containers;
      for i := 0 to |containers|
        invariant warnings == ImageWarnings(podName, containers[..i])
      {
        var container := containers[i];
        ghost var before := warnings;
        if container.image.Some? {
          var image := container.image.value;
          warnings := warnings + [ImageWarning(podName, container.name, image)];
        }
        assert warnings == before + ContainerImageWarnings(podName, container);
        ImageWarningsSnoc(podName, containers, i);
      }
      assert containers[..|containers|] == containers;
    }
    ImageWarningsPerImaged(DisplayName(pod.metadata), PodContainers(pod));
  }

  /** K10 on a concatenation of container lists is the concatenation of the results. */
  lemma {:induction false} ImageWarningsAppend(pod: string, a: seq<Container>, b: seq<Container>)
    ensures ImageWarnings(pod, a + b) == ImageWarnings(pod, a) + ImageWarnings(pod, b)
  {
    if a == [] {
      assert a + b == b;
    } else {
      assert (a + b)[1..] == a[1..] + b;
      ImageWarningsAppend(pod, a[1..], b);
    }
  }

  /** The k-th K10 line belongs to the k-th imaged container and carries its name and image. */
  lemma {:induction false} ImageWarningsPerImaged(pod: string, cs: seq<Container>)
    ensures var ws, im := ImageWarnings(pod, cs), ImagedContainers(cs);
      |ws| == |im| &&
      forall k :: 0 <= k < |ws| ==> ws[k] == ImageWarning(pod, im[k].name, im[k].image.value)
  {
    if cs != [] {
      ImageWarningsPerImaged(pod, cs[1..]);
    }
  }

  /** Each K10 line quotes its container's image string verbatim. */
  lemma ImageWarningQuotesImage(pod: string, container: string, image: string)
    ensures Contains(ImageWarning(pod, container, image), "'" + image + "'")
  {
    var a := "[K10] Pod '" + pod + "' container '" + container + "' is running image ";
    assert ImageWarning(pod, container, image) == a + ("'" + image + "'") + [];
    ContainsMiddle(a, "'" + image + "'", []);
  }

  /** A pod gets no K10 line exactly when none of its containers names an image. */
  lemma NoImageLinesIffNoImages(pod: string, cs: seq<Container>)
    ensures ImageWarnings(pod, cs) == [] <==> forall k :: 0 <= k < |cs| ==> cs[k].image.None?
  {
  }
}
