/**
 * The repository's unit tests, restated as lemmas about the rule model. The
 * same scenarios appear twice in the repository: once against the library
 * copy of the rules and once against the copy in the binary.
 */
module Scenarios {
  import opened Wrappers
  import opened Strings
  import opened Resources
  import opened Checks

  function PodWith(name: string, c: Container): Pod {
    Pod(ObjectMeta(Some(name)), Some(PodSpec([c])))
  }

  // ---- K01 ------------------------------------------------------------

  /** A container without a security context: exactly one warning. */
  lemma PodNoSecurityContext()
    ensures InsecureWorkloadWarnings(PodWith("pod-no-sc", Container("container1", None, None)))
      == ["[K01] Pod '" + "pod-no-sc" + "' container '" + "container1" + "' "
          + "has no security context defined"]
  {
    assert [Container("container1", None, None)][1..] == [];
  }

  /** runAsNonRoot unset, privileged false: exactly the one runAsNonRoot warning. */
  lemma PodMissingRunAsNonRoot()
    ensures InsecureWorkloadWarnings(PodWith("pod-missing-run-as",
              Container("container1", None, Some(SecurityContext(None, Some(false))))))
      == ["[K01] Pod '" + "pod-missing-run-as" + "' container '" + "container1" + "' "
          + "has no runAsNonRoot setting"]
  {
    assert [Container("container1", None, Some(SecurityContext(None, Some(false))))][1..] == [];
  }

  /** runAsNonRoot false, privileged true: the root warning, then the privileged one. */
  lemma PodRootAndPrivileged()
    ensures InsecureWorkloadWarnings(PodWith("pod-insecure",
              Container("container1", None, Some(SecurityContext(Some(false), Some(true))))))
      == ["[K01] Pod '" + "pod-insecure" + "' container '" + "container1" + "' "
          + "may run as root (runAsNonRoot is false)",
          "[K01] Pod '" + "pod-insecure" + "' container '" + "container1" + "' "
          + "is running in privileged mode"]
  {
    assert [Container("container1", None, Some(SecurityContext(Some(false), Some(true))))][1..] == [];
  }

  // ---- K03 ------------------------------------------------------------

  /** A ClusterRole named "cluster-admin" is flagged, and the warning names it. */
  lemma BindingClusterAdmin()
    ensures var r := AnalyzeRoleBinding(RoleBinding(ObjectMeta(Some("rb1")), RoleRef("ClusterRole", ClusterAdmin)));
      r.Some? && Contains(r.value, ClusterAdmin)
  {
    ClusterAdminBindingFlagged(ObjectMeta(Some("rb1")));
  }

  /** The ClusterRole "view" is not flagged. */
  lemma BindingViewClusterRole()
    ensures AnalyzeRoleBinding(RoleBinding(ObjectMeta(Some("rb2")), RoleRef("ClusterRole", "view"))).None?
  {
  }

  /** A Role (not a ClusterRole) named "cluster-admin" is not flagged. */
  lemma BindingRoleNotClusterRole()
    ensures AnalyzeRoleBinding(RoleBinding(ObjectMeta(Some("rb3")), RoleRef("Role", "cluster-admin"))).None?
  {
  }

  // ---- K07 ------------------------------------------------------------

  /** No policies: the single line says none were found. */
  lemma NoNetworkPolicies()
    ensures var r := AnalyzeNetworkPolicies([]);
      r.Some? && Contains(r.value, "No NetworkPolicies found")
  {
    ContainsMiddle("[K07] ", "No NetworkPolicies found", ". Consider implementing network segmentation controls.");
  }

  /** One policy: "Found 1 NetworkPolicy". */
  lemma OneNetworkPolicy()
    ensures var r := AnalyzeNetworkPolicies([NetworkPolicy(ObjectMeta(Some("np1")))]);
      r.Some? && Contains(r.value, "Found " + "1" + " NetworkPolicy")
  {
    PoliciesFoundMentionsCount(1);
  }

  /** Three policies: "Found 3 NetworkPolicy". */
  lemma ThreeNetworkPolicies()
    ensures var r := AnalyzeNetworkPolicies([NetworkPolicy(ObjectMeta(Some("np1"))),
                                             NetworkPolicy(ObjectMeta(Some("np2"))),
                                             NetworkPolicy(ObjectMeta(Some("np3")))]);
      r.Some? && Contains(r.value, "Found " + "3" + " NetworkPolicy")
  {
    PoliciesFoundMentionsCount(3);
  }

  // ---- K10 ------------------------------------------------------------

  /** A versioned image: one line, quoting the image. */
  lemma VersionedImage()
    ensures var ws := OutdatedComponentWarnings(PodWith("airflow-web-1",
              Container("web", Some("apache/airflow:2.5.1"), None)));
      |ws| == 1 && Contains(ws[0], "apache/airflow:2.5.1")
  {
    var ws := OutdatedComponentWarnings(PodWith("airflow-web-1",
              Container("web", Some("apache/airflow:2.5.1"), None)));
    assert [Container("web", Some("apache/airflow:2.5.1"), None)][1..] == [];
    ContainsMiddle("[K10] Pod '" + "airflow-web-1" + "' container '" + "web" + "' is running image '",
      "apache/airflow:2.5.1", "'");
  }

  /** A "latest" image: one line, quoting the image. */
  lemma LatestImage()
    ensures var ws := OutdatedComponentWarnings(PodWith("airflow-web-2",
              Container("web", Some("apache/airflow:latest"), None)));
      |ws| == 1 && Contains(ws[0], "apache/airflow:latest")
  {
    var ws := OutdatedComponentWarnings(PodWith("airflow-web-2",
              Container("web", Some("apache/airflow:latest"), None)));
    assert [Container("web", Some("apache/airflow:latest"), None)][1..] == [];
    ContainsMiddle("[K10] Pod '" + "airflow-web-2" + "' container '" + "web" + "' is running image '",
      "apache/airflow:latest", "'");
  }

  /** No image: no line. */
  lemma NoImage()
    ensures OutdatedComponentWarnings(PodWith("airflow-web-3", Container("web", None, None))) == []
  {
  }
}
