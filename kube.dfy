/**
 The fields of the Kubernetes API objects that the placement engine reads:
 a service's namespace, name, labels, cluster IP, external name and declared
 ports, and an endpoints object's subsets of addresses. The engine never reads
 a subset's ports; `EndpointPort` and `EndpointSubset.ports` are kept only so
 that the headless lemmas can state that ports make no difference.
 */
module Kube {

  datatype ServicePort = ServicePort(name: string, protocol: string, port: int)

  datatype Service = Service(
    name: string,
    namespace: string,
    labels: map<string, string>,
    clusterIP: string,
    externalName: string,
    ports: seq<ServicePort>)

  datatype EndpointAddress = EndpointAddress(ip: string, hostname: string)

  datatype EndpointPort = EndpointPort(name: string, protocol: string, port: int)

  datatype EndpointSubset = EndpointSubset(addresses: seq<EndpointAddress>, ports: seq<EndpointPort>)

  datatype Endpoints = Endpoints(subsets: seq<EndpointSubset>)

}
