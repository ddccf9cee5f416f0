/**
 * The parts of the Kubernetes API objects that the rules read. Every field the
 * API marks optional is an Option, so "unset" stays distinct from "false".
 */
module Resources {
  import opened Wrappers

  /** Object metadata; only the name is read. */
  datatype ObjectMeta = ObjectMeta(name: Option<string>)

  /** Container-level security settings: both flags are tri-state. */
  datatype SecurityContext = SecurityContext(runAsNonRoot: Option<bool>, privileged: Option<bool>)

  /** A container: a required name, an optional image and an optional security context. */
  datatype Container = Container(
    name: string,
    image: Option<string>,
    securityContext: Option<SecurityContext>)

  /** The containers of a pod spec, in declaration order. */
  datatype PodSpec = PodSpec(containers: seq<Container>)

  /** A pod; its spec may be missing. */
  datatype Pod = Pod(metadata: ObjectMeta, spec: Option<PodSpec>)

  /** The role a binding grants: its kind ("Role" or "ClusterRole") and name. */
  datatype RoleRef = RoleRef(kind: string, name: string)

  /** A role binding always carries a role reference. */
  datatype RoleBinding = RoleBinding(metadata: ObjectMeta, roleRef: RoleRef)

  /** A network policy; the rule only counts them. */
  datatype NetworkPolicy = NetworkPolicy(metadata: ObjectMeta)

  /** The name used in messages: the object's name, or "<unknown>" when it has none. */
  function DisplayName(meta: ObjectMeta): (n: string)
    ensures meta.name.Some? ==> n == meta.name.value
    ensures meta.name.None? ==> n == "<unknown>"
  {
    meta.name.GetOr("<unknown>")
  }

  /** The containers a pod declares; a pod without a spec declares none. */
  function PodContainers(pod: Pod): seq<Container>
  {
    match pod.spec
    case None => []
    case Some(spec) => spec.containers
  }
}
