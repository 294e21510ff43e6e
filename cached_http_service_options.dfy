/**
 * The options record of the cached HTTP service: a service name fixed at
 * construction, and a base address and solution id callers may set later.
 */
module Helpers {
  import opened Wrappers
  import opened Strings
  import opened Collaborators

  class CachedHttpServiceOptions {
    /** Set once by the constructor; its setter is private. */
    const ServiceName: string
    /** The base address URI, or None while unset. */
    var BaseAddress: Option<string>
    var SolutionId: Option<string>

    /** The constructor's assignments once the name has passed validation. */
    constructor (serviceName: string)
      requires !IsNullOrWhiteSpace(Some(serviceName))
      ensures ServiceName == serviceName
      ensures BaseAddress == None && SolutionId == None
    {
      ServiceName := serviceName;
      BaseAddress := None;
      SolutionId := None;
    }

    /**
     * `new CachedHttpServiceOptions(serviceName)`: a null, empty or
     * whitespace-only name throws ArgumentNullException naming the
     * parameter; any other name is kept exactly.
     */
    static method New(serviceName: Option<string>) returns (r: Result<CachedHttpServiceOptions, PortError>)
      ensures r.Failure? <==> IsNullOrWhiteSpace(serviceName)
      ensures r.Failure? ==> r.error == ArgumentNull("serviceName")
      ensures r.Success? ==>
        && fresh(r.value) && r.value.ServiceName == serviceName.value
        && r.value.BaseAddress == None && r.value.SolutionId == None
    {
      if IsNullOrWhiteSpace(serviceName) {
        return Failure(ArgumentNull("serviceName"));
      }
      var options := new CachedHttpServiceOptions(serviceName.value);
      return Success(options);
    }

    /** The BaseAddress setter: only BaseAddress changes. */
    method SetBaseAddress(address: Option<string>)
      modifies this`BaseAddress
      ensures BaseAddress == address
    {
      BaseAddress := address;
    }

    /** The SolutionId setter: only SolutionId changes. */
    method SetSolutionId(id: Option<string>)
      modifies this`SolutionId
      ensures SolutionId == id
    {
      SolutionId := id;
    }
  }
}
