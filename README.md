# hk8s rule evaluators, modelled in Dafny

hk8s is a periodic security-posture scanner for one Kubernetes namespace. It lists
Pods, RoleBindings and NetworkPolicies and runs four rules over them. Each rule
returns diagnostic strings tagged with its identifier:

- **K01, insecure workloads.** For each container of a Pod, in order, K01 reports
  a missing security context. If a security context is present, it checks
  `runAsNonRoot` first: unset and `false` are reported, `true` is not. It then
  checks `privileged`: only an explicit `true` is reported.
- **K03, overly permissive RBAC.** K03 flags a RoleBinding whose role reference has
  kind exactly `ClusterRole` and whose lowercased name contains `cluster-admin`.
- **K07, network segmentation.** K07 always gives one summary line: an advisory
  when there are no NetworkPolicies, otherwise their count.
- **K10, outdated components.** K10 gives one line per container that names an
  image, quoting the image string verbatim.

The rules appear twice in the repository. `src/checks.rs:7-89` is the library copy
and `src/main.rs:19-101` is a verbatim copy in the binary. One model serves both.
The unit tests at `src/main.rs:185-428` and `tests/checks_tests.rs:7-215` are the
same twelve scenarios; module `Scenarios` states them as lemmas.

Files:

- `wrappers.dfy` (`Wrappers`): the `Option` type. Every optional API field is an
  `Option`, so "unset" is distinct from `false`.
- `strings.dfy` (`Strings`): decimal rendering of a count, with a parser that
  reads it back. Also substring search, checked against an existential reference
  definition, and ASCII lowercasing.
- `resources.dfy` (`Resources`): the fields of Pod, Container, SecurityContext,
  RoleBinding, RoleRef and NetworkPolicy that the rules read.
- `checks.dfy` (`Checks`): the four rules and their properties. In the source, K01
  and K10 push onto a `Vec` inside a loop over the containers. Here they are
  methods with a `for` loop, each proved equal to a recursive specification
  function (`InsecureWorkloadWarnings`, `OutdatedComponentWarnings`). The
  properties are proved about those functions. K03 and K07 are single
  conditionals and are functions.
- `scenarios.dfy` (`Scenarios`): the repository's unit tests as lemmas.

All message texts follow the source's `format!` templates exactly. A few literals
are written as a concatenation of pieces; the resulting strings are unchanged.

## Model

| member | source | states |
|---|---|---|
| Strings.NatToString | src/checks.rs:69 | the rendered count is a non-empty string of decimal digits; it starts with `0` only for 0 and has one digit exactly below 10 |
| Strings.ParseNatToString | src/checks.rs:69 | parsing the rendered count gives the count back, so no information is lost |
| Strings.NatToStringInjective | src/checks.rs:69 | different counts render as different strings |
| Strings.Contains | src/checks.rs:51 | the executable substring search is true exactly when the pattern occurs at some index (the existential reference definition) |
| Strings.ContainsMiddle | src/checks.rs:53-54 | a string contains every piece it was concatenated from |
| Strings.LowerChar | src/checks.rs:51 | the lowercased character is never an upper-case letter; `A`-`Z` become the letter at the same position in `a`-`z`; every other character is unchanged |
| Strings.ToLower | src/checks.rs:51 | lowercasing keeps the length; each upper-case letter becomes its lower-case letter and every other character is unchanged |
| Strings.ToLowerOfLower | src/checks.rs:51 | lowercasing leaves a string with no upper-case letter unchanged |
| Resources.DisplayName | src/checks.rs:9 | an object's display name is its name when set and `<unknown>` otherwise |
| Checks.RunAsNonRootWarnings | src/checks.rs:14-26 | the runAsNonRoot check reports at most one warning, and none exactly when runAsNonRoot is `true`; the warning is "no runAsNonRoot setting" when unset and "may run as root" when `false` |
| Checks.PrivilegedWarnings | src/checks.rs:27-34 | the privileged check reports at most one warning, exactly when privileged is `true`, and it is the "running in privileged mode" warning |
| Checks.ContainerWarnings | src/checks.rs:12-40 | one container contributes at most two warnings |
| Checks.ContainersWarnings | src/checks.rs:11-41 | a pod's K01 output has at most twice as many warnings as it has containers |
| Checks.InsecureWorkloadWarnings | src/checks.rs:7-44 | what K01 reports for a pod has at most two warnings per container, and is empty for a pod without a spec |
| Checks.AnalyzePodInsecureWorkloads | src/checks.rs:7-44 | the loop's output equals the specification: per-container warnings concatenated in container order, empty without a spec, pod named `<unknown>` when unnamed; at most 2 warnings per container |
| Checks.ContainersWarningsAppend | src/checks.rs:11-41 | K01 over two container lists placed one after the other is the concatenation of the two outputs |
| Checks.ContainersWarningsSnoc | src/checks.rs:11-41 | processing one more container appends exactly that container's warnings |
| Checks.ContainersWarningsAt | src/checks.rs:11-41 | container k's warnings form one contiguous block, after those of containers before k and before those of containers after k |
| Checks.K01WarningInjective | src/checks.rs:16-38 | for a fixed pod and container, warnings with different issue texts are different strings |
| Checks.K01IssuesDistinct | src/checks.rs:16-38 | the four issue texts of K01 are pairwise different |
| Checks.ContainerOutcomes | src/checks.rs:13-39 | no security context gives exactly the one "no security context" warning; an unset runAsNonRoot always gives its warning first, and it is the only warning when privileged is false; runAsNonRoot false with privileged true gives the root warning and then the privileged warning; a container gives no warning exactly when runAsNonRoot is true and privileged is not true |
| Checks.ContainerWarningsExact | src/checks.rs:13-39 | each of the four warnings is present for a container if and only if its condition holds, and no other text is ever reported for it |
| Checks.RunAsNonRootBeforePrivileged | src/checks.rs:14-34 | within one container, a runAsNonRoot warning always comes before the privileged warning |
| Checks.ContainersWarningsNamed | src/checks.rs:9-39 | every K01 warning begins with the pod's name and the name of one of its containers |
| Checks.NoWarningsIffAllHardened | src/checks.rs:11-41 | a pod gets no K01 warning if and only if every container sets runAsNonRoot true and does not set privileged true |
| Checks.UnnamedPodIsUnknown | src/checks.rs:9 | every K01 warning about an unnamed pod names it `<unknown>` |
| Checks.AnalyzeRoleBinding | src/checks.rs:48-59 | K03 flags a binding if and only if its kind is exactly `ClusterRole` and its lowercased role name contains `cluster-admin`; the warning names the binding (`<unknown>` when unnamed) and the role |
| Checks.FlaggedNamesRole | src/checks.rs:52-55 | a K03 warning contains the role name exactly as the binding spells it |
| Checks.ClusterAdminIsLowercase | src/checks.rs:51 | the pattern `cluster-admin` is its own lowercase |
| Checks.ClusterAdminBindingFlagged | src/checks.rs:51-55 | any binding to the ClusterRole `cluster-admin` is flagged, and the warning contains `cluster-admin` |
| Checks.RoleBindingCaseInsensitive | src/checks.rs:51 | role names that are equal up to case get the same K03 verdict |
| Checks.OnlyClusterRolesFlagged | src/checks.rs:51 | a kind other than exactly `ClusterRole` is never flagged, whatever the name |
| Checks.ClusterAdminAnyCaseFlagged | src/checks.rs:51 | a ClusterRole whose name contains `cluster-admin` in any mix of case is flagged |
| Checks.ShoutedClusterAdminFlagged | src/checks.rs:51 | the ClusterRole `My-CLUSTER-ADMIN` is flagged: an upper-case occurrence after a prefix still matches |
| Checks.AnalyzeNetworkPolicies | src/checks.rs:63-71 | K07 always gives exactly one line: the fixed advisory for no policies, otherwise the "Found n NetworkPolicy object(s)." line for n policies |
| Checks.PoliciesFoundMentionsCount | src/checks.rs:69 | the K07 count line contains "Found n NetworkPolicy" for the decimal n |
| Checks.PoliciesFoundCount | src/checks.rs:69 | the count can be parsed back out of the K07 count line |
| Checks.NetworkPoliciesSameLineIffSameCount | src/checks.rs:63-71 | two policy lists give the same K07 line if and only if they have the same length |
| Checks.ImagedContainers | src/checks.rs:79-80 | the containers kept are exactly those that name an image |
| Checks.ImagedContainersAppend | src/checks.rs:79-80 | keeping the imaged containers of two lists placed one after the other gives the first list's kept containers followed by the second's, so the original order is preserved |
| Checks.ImagedContainersSingle | src/checks.rs:79-80 | a single container is kept exactly when it names an image |
| Checks.ImagedContainersCount | src/checks.rs:79-80 | each container that names an image is kept exactly as many times as it occurs, and no other container is kept |
| Checks.ContainerImageWarnings | src/checks.rs:80-85 | one container contributes one line when it names an image, the line for its name and image, and none otherwise |
| Checks.ImageWarnings | src/checks.rs:78-88 | a container list gives at most one K10 line per container |
| Checks.ImageWarningsSnoc | src/checks.rs:78-88 | processing one more container appends exactly that container's line, if any |
| Checks.OutdatedComponentWarnings | src/checks.rs:75-89 | what K10 reports for a pod has at most one line per container, and is empty for a pod without a spec |
| Checks.AnalyzeOutdatedComponents | src/checks.rs:75-89 | the loop's output equals the specification, with exactly one line per container that names an image |
| Checks.ImageWarningsAppend | src/checks.rs:79-86 | K10 over two container lists placed one after the other is the concatenation of the two outputs |
| Checks.ImageWarningsPerImaged | src/checks.rs:78-88 | the k-th K10 line is about the k-th container that names an image, with that container's name and image |
| Checks.ImageWarningQuotesImage | src/checks.rs:81-84 | each K10 line contains the image string verbatim, in single quotes |
| Checks.NoImageLinesIffNoImages | src/checks.rs:78-88 | a pod gets no K10 line if and only if none of its containers names an image |
| Scenarios.PodNoSecurityContext | src/main.rs:195-214 | test `pod-no-sc`: exactly the one "has no security context defined" warning |
| Scenarios.PodMissingRunAsNonRoot | src/main.rs:216-240 | test `pod-missing-run-as`: exactly the one "has no runAsNonRoot setting" warning |
| Scenarios.PodRootAndPrivileged | src/main.rs:242-267 | test `pod-insecure`: exactly two warnings, "may run as root" first and "is running in privileged mode" second |
| Scenarios.BindingClusterAdmin | src/main.rs:271-287 | test `rb1`: the ClusterRole `cluster-admin` is flagged and the message contains `cluster-admin` |
| Scenarios.BindingViewClusterRole | src/main.rs:289-304 | test `rb2`: the ClusterRole `view` is not flagged |
| Scenarios.BindingRoleNotClusterRole | src/main.rs:306-321 | test `rb3`: a Role named `cluster-admin` is not flagged |
| Scenarios.NoNetworkPolicies | src/main.rs:325-332 | no policies: the line contains "No NetworkPolicies found" |
| Scenarios.OneNetworkPolicy | src/main.rs:334-345 | one policy: the line contains "Found 1 NetworkPolicy" |
| Scenarios.ThreeNetworkPolicies | src/main.rs:347-366 | three policies: the line contains "Found 3 NetworkPolicy" |
| Scenarios.VersionedImage | src/main.rs:370-388 | image `apache/airflow:2.5.1`: exactly one line, containing the image |
| Scenarios.LatestImage | src/main.rs:390-408 | image `apache/airflow:latest`: exactly one line, containing the image |
| Scenarios.NoImage | src/main.rs:410-427 | no image: no line |

## Left out

- Strings.ToLower: Rust's `to_lowercase` applies the full Unicode case mapping. The model lowercases ASCII `A`-`Z` only and leaves every other character unchanged, so the lowercased string differs from Rust's on non-ASCII letters. That string is never reported, and the K03 verdict is the same: under Rust's mapping the only non-ASCII characters whose lowercase contains an ASCII letter are U+0130 (to `i` followed by U+0307) and U+212A (to `k`), and neither can complete an occurrence of `cluster-admin`.
- Cluster access is not modelled: listing objects through the Kubernetes API, the concurrent join of the four checks, printing findings to stdout and errors to stderr, client setup, and the endless 30-second polling loop (src/main.rs:107-183, src/monitor.rs). These are I/O, network and concurrency glue with no decision logic.
- The namespace `airflow` and the `component=webserver` label selector are left out. The cluster API applies them when listing objects, before any rule runs.
- API object fields that the rules never read are left out, such as `apiGroup`, subjects, the NetworkPolicy spec and the other container fields.
- Determinism and idempotence are not stated as lemmas. Every rule here is a function or a method over values, so equal inputs give equal outputs by construction.
- `Vec<String>` and `String` become `seq<string>` and `seq<char>`. Memory allocation and ownership are not modelled.
