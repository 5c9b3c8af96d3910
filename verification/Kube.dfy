/** The Kubernetes objects the controller reads, the middleware values it
    compiles them into, and the routing types shared by every component.
    As in Go, a string is a sequence of bytes: every char is one byte. */
module Kube {
  import opened Prelude

  datatype Name = Name(namespace: string, name: string)

  // Cluster objects

  datatype ServiceBackend = ServiceBackend(name: string, portName: string, portNumber: int)

  /** `service` is None for a resource backend, which the controller skips. */
  datatype HttpPath = HttpPath(path: string, pathType: Option<string>, service: Option<ServiceBackend>)

  datatype Rule = Rule(host: string, paths: seq<HttpPath>)

  datatype TlsItem = TlsItem(secretName: string, hosts: seq<string>)

  datatype Ingress = Ingress(
    id: Name,
    className: Option<string>,
    annotations: map<string, string>,
    rules: seq<Rule>,
    tls: seq<TlsItem>)

  datatype ServicePort = ServicePort(name: string, port: int)

  datatype Service = Service(clusterIP: string, ports: seq<ServicePort>)

  datatype Secret = Secret(data: map<string, string>)

  /** Ingress classes are represented by their immutable spec.controller. */
  datatype Cluster = Cluster(
    ingresses: map<Name, Ingress>,
    classes: map<string, string>,
    services: map<Name, Service>,
    secrets: map<Name, Secret>)
  {
    ghost predicate WellFormed() {
      forall n :: n in ingresses ==> ingresses[n].id == n
    }
  }

  /** What the client sees at each of its successive reads: the k-th read is answered from views(k). */
  type Views = nat -> Cluster

  /** Every read is answered from the same cluster. */
  function Still(c: Cluster): Views {
    (k: nat) => c
  }

  // Proxy values

  /** What a module contributes to a request or route; evaluated in Pipeline. */
  datatype Middleware =
    | HttpsRedirect(setsHsts: bool)
    | OidcCallback(domains: map<string, string>)
    | IpAllowlist(prefixes: seq<string>)
    | BasicAuth(realm: string, htpasswd: string)
    | ForwardAuth(authUrl: string, signInUrl: string)
    | OidcGuard(client: string, groups: Option<seq<string>>, emails: Option<seq<string>>)
    | DenyPath(pattern: string)
    | WebsocketProxy
    | ResponseHeaders(lines: seq<string>)
    | UpstreamHeaders(lines: seq<string>)

  datatype Endpoint = Endpoint(address: string, port: nat)

  datatype PathType = Exact | Prefix

  datatype Route = Route(
    path: string,
    pathType: PathType,
    endpoint: Endpoint,
    middlewares: seq<Middleware>,
    maxBodySize: int,
    ingress: Name)

  datatype Certificate = Certificate(crt: string, key: string)
}
