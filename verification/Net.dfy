/** Socket addresses and the failure-carrying types shared by the other modules. */
module Net {

  datatype Option<+T> = None | Some(value: T)

  datatype Result<+T, +E> = Ok(value: T) | Err(error: E)

  /** An address as the forwarder sees it: it is only compared, hashed and copied. */
  datatype SocketAddr = SocketAddr(ip: nat, port: nat)
}
