/** The record of the endpoint that the current request is being served by,
    and the textual form of an endpoint identifier, `<bean>.<method>`. */
module RouterInformation {

  /** The endpoint identifier of a handler: its bean name and its method name
      joined by a single `.`. The registry keys its entries with the same
      text. */
  function EndpointOf(beanName: string, methodName: string): (r: string)
    ensures |r| == |beanName| + |methodName| + 1
    ensures r[..|beanName|] == beanName
    ensures r[|beanName|] == '.'
    ensures r[|beanName| + 1..] == methodName
  {
    beanName + "." + methodName
  }

  /** The scope of an identifier: the text before its first `.` (all of it
      when it has none). */
  function ScopeOf(endpoint: string): (r: string)
    ensures '.' !in r
    ensures r <= endpoint
    ensures |r| < |endpoint| ==> endpoint[|r|] == '.'
  {
    if endpoint == [] || endpoint[0] == '.' then []
    else [endpoint[0]] + ScopeOf(endpoint[1..])
  }

  /** When the bean name has no `.`, the scope of the identifier built from
      it is the bean name: the same text relative resolution prepends. */
  lemma ScopeOfEndpoint(beanName: string, methodName: string)
    requires '.' !in beanName
    ensures ScopeOf(EndpointOf(beanName, methodName)) == beanName
  {
  }

  /** What the request interceptor records about the request in flight: the
      handler's bean and method names, the path variables the dispatch bound,
      the requested URL and the external URL prefix of the request. */
  datatype ReverserRouterInformation = ReverserRouterInformation(
    beanName: string,
    methodName: string,
    pathVariables: map<string, string>,
    requestURL: string,
    urlPrefix: string)
  {
    /** The identifier of the endpoint being served. */
    function Endpoint(): (r: string)
      ensures |r| == |beanName| + |methodName| + 1
      ensures r[..|beanName|] == beanName && r[|beanName|] == '.' && r[|beanName| + 1..] == methodName
    {
      EndpointOf(beanName, methodName)
    }
  }

  /** The endpoint is a value fixed by the two names alone: records that agree
      on them agree on it, whatever they bound and whatever was requested. */
  lemma EndpointDependsOnNamesOnly(a: ReverserRouterInformation, b: ReverserRouterInformation)
    requires a.beanName == b.beanName && a.methodName == b.methodName
    ensures a.Endpoint() == b.Endpoint()
  {
  }
}
