// The value types shared by every component (include/ignition/transport/TransportTypes.hh).
module Types {

  datatype Option<+T> = None | Some(value: T)

  type ScopeByte = n: nat | 2 < n < 256 witness 3

  // Process: same process only. Host: same machine only. All: anybody. A datagram can hold any byte for
  // a scope, and the cast to the enumeration keeps it: Other is a value without a name.
  datatype Scope = Process | Host | All | Other(code: ScopeByte)

  // The two families the discovery layer advertises: MsgType in the source.
  datatype Kind = Msg | Srv

  // What is known about one publisher of a topic: Address_t in the source.
  datatype Address = Address(addr: string, ctrl: string, nUuid: string, scope: Scope)
}
