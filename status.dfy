/** gRPC status codes used by the hello service and the result of an RPC:
    either a typed response or a status error carrying a code and a message. */
module Status {

  /** The gRPC codes the service can report. */
  datatype Code = NotFound | Unimplemented

  /** The outcome of an RPC handler: a response, or a nil response with a
      status error (`grpc.Errorf(code, message)`). */
  datatype Result<T> = Ok(value: T) | Err(code: Code, message: string)
}
