/** The kubectl client of the UI (ui/src/clients/kubectl.ts): the argument
    lists it builds, the pull-secret check and the service lookup. Each
    `kubectl` invocation is an abstract outcome handed in by the caller. */
module Kubectl {
  import opened Wrappers
  import opened Flatten

  const SecretName := "application-collection"
  const ServicesLookupFailed := "Unexpected error getting services"

  /** The part of a Kubernetes `V1ServicePort` the UI reads. */
  datatype ServicePort = ServicePort(targetPort: int, nodePort: int, protocol: string)

  /** The part of a `V1ServiceSpec` the UI reads. */
  datatype ServiceSpec = ServiceSpec(serviceType: Option<string>, ports: Option<seq<ServicePort>>)

  /** A `V1Service`. */
  datatype Service = Service(spec: Option<ServiceSpec>)

  /** `kubectl delete secret application-collection --wait`. */
  function KubernetesLogoutArgs(): seq<string>
  {
    ["delete", "secret", SecretName, "--wait"]
  }

  /** `kubectl create secret docker-registry …`: the user name follows
      `--docker-username` and the token follows `--docker-password`. */
  function KubernetesLoginArgs(username: string, token: string): (args: seq<string>)
    ensures |args| == 10 && args[..4] == ["create", "secret", "docker-registry", SecretName]
    ensures args[4] == "--docker-server" && args[5] == "dp.apps.rancher.io"
    ensures args[6] == "--docker-username" && args[7] == username
    ensures args[8] == "--docker-password" && args[9] == token
  {
    ["create", "secret", "docker-registry", SecretName,
     "--docker-server", "dp.apps.rancher.io",
     "--docker-username", username,
     "--docker-password", token]
  }

  /** `kubectl get secret application-collection -o json`. */
  function SecretLookupArgs(): seq<string>
  {
    ["get", "secret", SecretName, "-o", "json"]
  }

  /** `findKubernetesSecret`: `found` is the `metadata.name` read from the
      command's output, `None` when the command or the parsing fails. The
      answer is a boolean either way: the check never rejects. */
  function FindKubernetesSecret(found: Option<string>): (stored: bool)
    ensures stored <==> found == Some(SecretName)
    ensures found.None? ==> !stored
  {
    match found
    case Some(name) => name == SecretName
    case None => false
  }

  /** `selectors.flatMap(({ key, value }) => ['-l', `${key}=${value}`])`:
      `Flatten.FlagPairs` with the flag `-l`, the same shape as
      `HelmClient.SetArgs`. */
  function SelectorArgs(selectors: seq<KeyValue>): (args: seq<string>)
    ensures |args| == 2 * |selectors|
    ensures forall i :: 0 <= i < |selectors| ==>
      args[2 * i] == "-l" && args[2 * i + 1] == selectors[i].key + "=" + selectors[i].value
  {
    FlagPairs("-l", selectors)
  }

  /** The selector arguments of two lists are those of each in turn. */
  lemma SelectorArgsAppend(a: seq<KeyValue>, b: seq<KeyValue>)
    ensures SelectorArgs(a + b) == SelectorArgs(a) + SelectorArgs(b)
  {
    FlagPairsAppend("-l", a, b);
  }

  /** The `getServices` arguments: `get services`, a `-l key=value` pair
      per selector in order, then `-o json`. */
  function GetServicesArgs(selectors: seq<KeyValue>): (args: seq<string>)
    ensures |args| == 4 + 2 * |selectors|
    ensures args[..2] == ["get", "services"] && args[|args| - 2..] == ["-o", "json"]
    ensures forall i :: 0 <= i < |selectors| ==>
      args[2 + 2 * i] == "-l" && args[3 + 2 * i] == selectors[i].key + "=" + selectors[i].value
  {
    var middle := SelectorArgs(selectors);
    var args := ["get", "services"] + middle + ["-o", "json"];
    assert args[..2] == ["get", "services"];
    assert args[|args| - 2..] == ["-o", "json"];
    assert forall i :: 0 <= i < |middle| ==> args[2 + i] == middle[i];
    args
  }

  /** `getServices`: the parsed `items` of the output, or the fixed
      rejection when the command or the parsing fails. */
  function GetServices(items: Option<seq<Service>>): (r: Result<seq<Service>, string>)
    ensures r.Success? <==> items.Some?
    ensures r.Success? ==> r.value == items.value
    ensures r.Failure? ==> r.error == ServicesLookupFailed
  {
    match items
    case Some(services) => Success(services)
    case None => Failure(ServicesLookupFailed)
  }
}
