/** The client side of the dish's request/response interface (class `Dishy`).
    The channel itself is not modelled: each call is given the outcome the
    transport delivered, either a response envelope or a transport error. */
module Dishy {
  import opened Wrappers

  /** The status carried by every response envelope; code 0 means success. */
  datatype Status = Status(code: int, message: string)

  /** A response envelope whose payload is of type `T`. */
  datatype Response<T> = Response(status: Status, body: T)

  /** What `stub.Handle` produced: a response, or a raised `grpc.RpcError`
      (unreachable channel, deadline exceeded, ...). */
  datatype Reply<T> = Delivered(response: Response<T>) | TransportFailure(code: nat, details: string)

  /** The exceptions that can escape the client. */
  datatype Exception =
    | RpcError(code: nat, details: string)
      /** An attribute read on `None`; `attribute` is the attribute asked for. */
    | NoneAttribute(attribute: string)

  /** The device-info payload; the two version fields are optional protobuf fields. */
  datatype DeviceInfo = DeviceInfo(id: string, softwareVersion: Option<string>, hardwareVersion: Option<string>)

  /** A latitude/longitude/altitude triple. Doubles are modelled as reals. */
  datatype Lla = Lla(lat: real, lon: real, alt: real)

  /** The location payload; `lla` is an optional sub-message. */
  datatype Location = Location(lla: Option<Lla>)

  /** The dictionary `get_position` returns. */
  datatype Position = Position(latitude: Option<real>, longitude: Option<real>, altitude: Option<real>)

  /** The all-`None` position reported when the dish has no location. */
  const NoFix: Position := Position(None, None, None)

  /** The three coordinates are all present or all absent. */
  predicate AllOrNone(p: Position) {
    (p.latitude.Some? <==> p.longitude.Some?) && (p.latitude.Some? <==> p.altitude.Some?)
  }

  /** `_make_request`: a response with status 0 is returned, one with any
      other status becomes `None`, and a transport error is re-raised as is. */
  function MakeRequest<T>(reply: Reply<T>): (r: Result<Option<Response<T>>, Exception>)
    ensures r.Failure? <==> reply.TransportFailure?
    ensures r.Failure? ==> r.error == RpcError(reply.code, reply.details)
    ensures r.Success? ==> (r.value.Some? <==> reply.response.status.code == 0)
    ensures r.Success? && r.value.Some? ==> r.value.value == reply.response
  {
    match reply
    case TransportFailure(code, details) => Failure(RpcError(code, details))
    case Delivered(response) =>
      if response.status.code != 0 then Success(None) else Success(Some(response))
  }

  /** Once `_make_request` has returned a response, its status is 0: the
      non-zero-status branch of `get_position`, which needs a returned
      response with a non-zero status, cannot be entered. */
  lemma StatusBranchUnreachable<T>(reply: Reply<T>)
    ensures MakeRequest(reply).Success? && MakeRequest(reply).value.Some? ==>
      MakeRequest(reply).value.value.status.code == 0
  {
  }

  /** `get_device_info`: the device info of a successful response. A non-zero
      status makes `_make_request` return `None`, and reading
      `get_device_info` on it raises. */
  function GetDeviceInfo(reply: Reply<DeviceInfo>): (r: Result<DeviceInfo, Exception>)
    ensures reply.TransportFailure? ==> r == Failure(RpcError(reply.code, reply.details))
    ensures reply.Delivered? && reply.response.status.code != 0 ==> r == Failure(NoneAttribute("get_device_info"))
    ensures r.Success? <==> reply.Delivered? && reply.response.status.code == 0
    ensures r.Success? ==> r.value == reply.response.body
  {
    match MakeRequest(reply)
    case Failure(e) => Failure(e)
    case Success(None) => Failure(NoneAttribute("get_device_info"))
    case Success(Some(response)) => Success(response.body)
  }

  /** The position a location message describes: the three parts of `lla`
      when it is set, all `None` otherwise. */
  function FromLocation(location: Location): (p: Position)
    ensures AllOrNone(p)
    ensures location.lla.None? <==> p == NoFix
    ensures location.lla.Some? ==>
      p.latitude == Some(location.lla.value.lat) &&
      p.longitude == Some(location.lla.value.lon) &&
      p.altitude == Some(location.lla.value.alt)
  {
    match location.lla
    case Some(lla) => Position(Some(lla.lat), Some(lla.lon), Some(lla.alt))
    case None => NoFix
  }

  /** `get_position` as written: `r.status` is read before `r` is checked
      for `None`, so every non-zero status raises instead of reaching the
      all-`None` branch. */
  function GetPositionAsWritten(reply: Reply<Location>): (r: Result<Position, Exception>)
    ensures r == Failure(NoneAttribute("status")) <==> reply.Delivered? && reply.response.status.code != 0
    ensures reply.TransportFailure? ==> r == Failure(RpcError(reply.code, reply.details))
    ensures r.Success? ==> reply.Delivered? && reply.response.status.code == 0
    ensures r.Success? ==> r.value == FromLocation(reply.response.body)
  {
    match MakeRequest(reply)
    case Failure(e) => Failure(e)
    case Success(None) => Failure(NoneAttribute("status"))
    case Success(Some(response)) =>
      // the all-None branch of the source is dead: see StatusBranchUnreachable
      if response.status.code != 0 then assert false; Success(NoFix)
      else Success(FromLocation(response.body))
  }

  /** A concrete reply on which the as-written `get_position` raises where
      an all-`None` position was evidently intended. */
  lemma GetPositionAsWrittenRaisesOnStatus()
    ensures GetPositionAsWritten(Delivered(Response(Status(5, "no location"), Location(None))))
         == Failure(NoneAttribute("status"))
    ensures GetPosition(Delivered(Response(Status(5, "no location"), Location(None))))
         == Success(NoFix)
  {
  }

  /** `get_position` as intended: a non-zero status reports no fix, a status
      of 0 reports the location, and a transport error propagates. */
  function GetPosition(reply: Reply<Location>): (r: Result<Position, Exception>)
    ensures r.Failure? <==> reply.TransportFailure?
    ensures r.Failure? ==> r.error == RpcError(reply.code, reply.details)
    ensures r.Success? ==> AllOrNone(r.value)
    ensures reply.Delivered? && reply.response.status.code != 0 ==> r == Success(NoFix)
    ensures reply.Delivered? && reply.response.status.code == 0 ==>
      r == Success(FromLocation(reply.response.body))
  {
    match MakeRequest(reply)
    case Failure(e) => Failure(e)
    case Success(None) => Success(NoFix)
    case Success(Some(response)) => Success(FromLocation(response.body))
  }

  /** The corrected `get_position` differs from the one as written exactly
      on the replies the as-written one raises for. */
  lemma GetPositionCorrectsAsWritten(reply: Reply<Location>)
    ensures GetPositionAsWritten(reply) != GetPosition(reply) <==>
      reply.Delivered? && reply.response.status.code != 0
    ensures GetPositionAsWritten(reply).Success? ==> GetPositionAsWritten(reply) == GetPosition(reply)
  {
  }
}
