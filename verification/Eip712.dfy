/**
 The typed data both gates hand to signature recovery. Recovery itself is an
 uninterpreted function of (domain, message, signature): a parameter of every
 function that needs it.
 */
module Eip712 {
  import opened Wrappers

  datatype Domain = Domain(name: string, version: string, chainId: int, verifyingContract: string)

  datatype Message = Message(from: string, to: string, value: int, validAfter: int, validBefore: int, nonce: string)

  /** The recovered signer, or None when recovery throws. */
  type Recover = (Domain, Message, string) -> Option<string>
}
