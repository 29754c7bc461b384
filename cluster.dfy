/**
 * The part of the cluster API the helper-pod lifecycle talks to: the pod
 * object it creates, the errors and pod phases the API reports, and the
 * requests it is sent. The API server itself is not modelled; its replies
 * are inputs.
 */
module Cluster {
  import opened Wrappers

  /** Errors the API reports; `NotFound` is what `IsNotFound` recognises. */
  datatype ApiError = NotFound | AlreadyExists | Transport(cause: string)

  datatype Phase = Pending | Running | Succeeded | Failed | Unknown

  /** The API's answer to one request. */
  type Reply<T> = Result<T, ApiError>

  datatype ObjectMeta = ObjectMeta(name: string, namespace: string, labels: map<string, string>)

  datatype Container = Container(
    name: string,
    image: string,
    command: seq<string>,
    args: seq<string>,
    privileged: bool)

  datatype PodSpec = PodSpec(
    nodeName: string,
    hostNetwork: bool,
    hostPID: bool,
    hostIPC: bool,
    containers: seq<Container>)

  datatype Pod = Pod(meta: ObjectMeta, spec: PodSpec)

  /** One request sent to the API server. */
  datatype Call =
    | GetNode(name: string)
    | GetNamespace(name: string)
    | GetPod(namespace: string, name: string)
    | CreatePod(namespace: string, pod: Pod)
    | DeletePod(namespace: string, name: string)
}
